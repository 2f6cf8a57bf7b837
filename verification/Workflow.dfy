/** One workflow execution from trigger to report: the guarded read, the handler on heap integers and
    streamed responses, and the hand-over of at most one report. */
module Workflow {
  import opened Results
  import opened Words
  import opened Bindings
  import opened Config
  import opened JsonStream
  import opened PoolRanking
  import opened PoolSelection
  import opened RelayResponse
  import opened Snapshot
  import opened Handlers
  import Reports
  import B = BigIntegers
  import EpochAccounting
  import ParentVault

  // ----- registration -----

  datatype Subscription = OnEpochSchedule(schedule: string) | OnRebalanceSchedule(schedule: string) | OnVaultLogs(evm: EvmConfig)

  function Subscriptions(c: Config): seq<Subscription> {
    [OnEpochSchedule(c.epochSchedule), OnRebalanceSchedule(c.rebalanceSchedule)]
    + seq(|c.evms|, i requires 0 <= i < |c.evms| => OnVaultLogs(c.evms[i]))
  }

  /** Two schedules and one log subscription per vault, within the trigger quota, for exactly the valid
      configurations. */
  method InitWorkflow(text: Text, cfg: Option<Config>) returns (handlers: Option<seq<Subscription>>)
    ensures handlers.Some? <==> cfg.Some? && ValidConfig(text, cfg.value)
    ensures handlers.Some? ==> handlers.value == Subscriptions(cfg.value) && |handlers.value| <= MAX_TRIGGERS
  {
    var err := ValidateConfig(text, cfg);
    if err.Some? {
      return None;
    }
    var c := cfg.value;
    var subscriptions := [OnEpochSchedule(c.epochSchedule), OnRebalanceSchedule(c.rebalanceSchedule)];
    for i := 0 to |c.evms|
      invariant |subscriptions| == 2 + i && subscriptions <= Subscriptions(c)
    {
      subscriptions := subscriptions + [OnVaultLogs(c.evms[i])];
    }
    return Some(subscriptions);
  }

  // ----- handlers with work of their own -----

  method NewBig(n: Num) returns (b: B.BigInt?)
    ensures n.Nil? <==> b == null
    ensures b != null ==> fresh(b) && b.value == n.v
  {
    if n.Nil? {
      return null;
    }
    b := new B.BigInt(n.v);
  }

  /** The integers of an epoch that the accounting reads, as the bindings allocate them. */
  method NewEpoch(e: Epoch<Num>) returns (r: Epoch<B.BigInt?>)
    requires ValidEpoch(e)
    ensures r.totalDepositAmount != null && r.totalDepositAmount.value == e.totalDepositAmount.v
    ensures r.totalShareBurnAmount != null && r.totalShareBurnAmount.value == e.totalShareBurnAmount.v
    ensures r.totalWithdrawClaimAmount != null && r.totalWithdrawClaimAmount.value == e.totalWithdrawClaimAmount.v
    ensures r.remainingShareMintAmount != null && r.remainingShareMintAmount.value == e.remainingShareMintAmount.v
  {
    var deposit := NewBig(e.totalDepositAmount);
    var burn := NewBig(e.totalShareBurnAmount);
    var withdraw := NewBig(e.totalWithdrawClaimAmount);
    var remainingDeposit := NewBig(e.remainingDepositClaimAmount);
    var mint := NewBig(e.remainingShareMintAmount);
    var remainingBurn := NewBig(e.remainingShareBurnAmount);
    var remainingWithdraw := NewBig(e.remainingWithdrawClaimAmount);
    var openedAt := NewBig(e.openedAtTimestamp);
    return Epoch(deposit, burn, withdraw, remainingDeposit, mint, remainingBurn, remainingWithdraw, openedAt, e.status);
  }

  /** The preflight of a close on heap integers, as the accounting code runs it. */
  method PreflightClose(p: ParentView, tvl: Num, assetDecimals: uint8,
                        isLocal: bool) returns (err: Option<ParentVault.Rejection>)
    requires ValidParent(p) && assetDecimals <= 77
    ensures IsUint256(Power(10, assetDecimals))
    ensures err == if !Uint256(tvl) then Some(ParentVault.InvalidInput)
                   else match ParentVault.Settle(p.currentEpoch.totalDepositAmount.v, p.currentEpoch.totalShareBurnAmount.v,
                                                 p.totalShares.v, tvl.v, Power(10, assetDecimals), isLocal)
                        case Err(e) => Some(e)
                        case Ok(_) => None
  {
    AssetPrecisionIsUint256(assetDecimals);
    var epoch := NewEpoch(p.currentEpoch);
    var totalShares := NewBig(p.totalShares);
    var tvlBig := NewBig(tvl);
    EpochAccounting.WidthIsInterval(epoch.totalDepositAmount);
    EpochAccounting.WidthIsInterval(epoch.totalShareBurnAmount);
    EpochAccounting.WidthIsInterval(totalShares);
    EpochAccounting.WidthIsInterval(tvlBig);
    var _, rejection := EpochAccounting.CalculateEpochClose(epoch, totalShares, tvlBig, assetDecimals, isLocal);
    return rejection;
  }

  /** The preflight of a delivery on heap integers. */
  method PreflightDelivery(p: ParentView, amount: uint256) returns (err: Option<ParentVault.Rejection>)
    requires ValidParent(p)
    ensures err == match ParentVault.Reconcile(p.previousEpoch.totalDepositAmount.v,
                                               p.previousEpoch.totalWithdrawClaimAmount.v,
                                               p.previousEpoch.remainingShareMintAmount.v, p.totalShares.v, amount)
                   case Err(e) => Some(e)
                   case Ok(_) => None
  {
    var epoch := NewEpoch(p.previousEpoch);
    var totalShares := NewBig(p.totalShares);
    var actual := new B.BigInt(amount);
    EpochAccounting.WidthIsInterval(epoch.totalDepositAmount);
    EpochAccounting.WidthIsInterval(epoch.totalWithdrawClaimAmount);
    EpochAccounting.WidthIsInterval(epoch.remainingShareMintAmount);
    EpochAccounting.WidthIsInterval(totalShares);
    EpochAccounting.WidthIsInterval(actual);
    var _, rejection := EpochAccounting.ReconcileEpochDeposit(epoch, totalShares, actual);
    return rejection;
  }

  method OnEpochCronTrigger(text: Text, cfg: Config, s: Snapshot) returns (outcome: Outcome)
    requires ValidConfig(text, cfg) && ValidSnapshot(cfg.evms, s)
    ensures outcome == OnEpochCron(text, cfg, s)
  {
    var parent := FindParent(cfg.evms);
    if parent.None? {
      return Fail(NoParentChain);
    }
    var p := s.parent;
    if p.rebalance.state != REBALANCE_NONE {
      return NoOp(RebalanceInProgress);
    }
    if p.currentEpochNonce.v > 1 && p.previousEpoch.status != EPOCH_CLAIMABLE {
      return NoOp(PreviousEpochNotClaimable);
    }
    if p.currentEpoch.status != EPOCH_OPEN {
      return NoOp(EpochNotOpen);
    }
    if !PeriodElapsed(p.currentEpoch.openedAtTimestamp, s.observedAt, MIN_EPOCH_PERIOD) {
      return NoOp(EpochTooYoung);
    }
    var tvl := ActiveTvl(s, parent.value.chainSelector);
    if tvl.None? {
      return Fail(UnknownChain);
    }
    var isLocal := p.rebalance.activeStrategy.chainSelector == parent.value.chainSelector;
    var err := PreflightClose(p, tvl.value, cfg.assetDecimals.value, isLocal);
    if err.Some? {
      return NoOp(AccountingRejected(err.value));
    }
    return Submit(Report(parent.value, s.observedAt, CloseEpoch(p.currentEpochNonce.v, tvl.value.v)));
  }

  method OnEpochDepositToStrategySuccess(text: Text, cfg: Config, s: Snapshot, source: uint64, address: seq<uint8>,
                                         nonce: uint256, amount: uint256)
    returns (outcome: Outcome)
    requires ValidConfig(text, cfg) && ValidSnapshot(cfg.evms, s)
    ensures outcome == OnEpochDepositSuccess(text, cfg, s, source, address, nonce, amount)
  {
    var parent := FindParent(cfg.evms);
    if parent.None? {
      return Fail(NoParentChain);
    }
    var active := s.parent.rebalance.activeStrategy.chainSelector;
    if active == parent.value.chainSelector || !MatchSource(cfg.evms, address, source, active) {
      return NoOp(WrongSource);
    }
    if !MatchesExecutingEpoch(s.parent, nonce) {
      return NoOp(StaleEvent);
    }
    var err := PreflightDelivery(s.parent, amount);
    if err.Some? {
      return NoOp(AccountingRejected(err.value));
    }
    return Submit(Report(parent.value, s.observedAt, CompleteEpochDeposit(nonce, amount)));
  }

  /** What fetching and selecting pools returns for the active strategy. */
  function Fetch(text: Text, keccak: string -> ProtocolId, cfg: Config, active: Strategy, body: Option<Json>, now: int64)
    : Option<Selection>
  {
    var policy := SelectionPolicy(cfg);
    FetchAndParse(text, keccak, Query(policy, active.protocolId, NameOf(policy, active.chainSelector)), body, now)
  }

  method FetchAndSelectPools(text: Text, keccak: string -> ProtocolId, policy: Policy, active: Strategy,
                             body: Option<Json>, now: int64)
    returns (selection: Option<Selection>)
    ensures selection == FetchAndParse(text, keccak, Query(policy, active.protocolId, NameOf(policy, active.chainSelector)),
                                       body, now)
  {
    var names := BuildSelectorToName(policy.chains);
    var activeName := if active.chainSelector in names then names[active.chainSelector] else "";
    selection := FetchAndParseBody(text, keccak, Query(policy, active.protocolId, activeName), body, now);
  }

  /** The response is fetched only once the snapshot guards have passed. */
  method OnRebalanceCronTrigger(text: Text, keccak: string -> ProtocolId, cfg: Config, s: Snapshot,
                                body: Option<Json>, now: int64)
    returns (outcome: Outcome)
    requires ValidConfig(text, cfg) && ValidSnapshot(cfg.evms, s)
    ensures outcome == OnRebalanceCron(text, keccak, cfg, s,
                                       Fetch(text, keccak, cfg, s.parent.rebalance.activeStrategy, body, now))
  {
    var parent := FindParent(cfg.evms);
    if parent.None? {
      return Fail(NoParentChain);
    }
    var p := s.parent;
    var active := p.rebalance.activeStrategy;
    if p.rebalance.state != REBALANCE_NONE {
      return NoOp(RebalanceInProgress);
    }
    if p.currentEpochNonce.v <= 1 {
      return NoOp(NoCompletedEpoch);
    }
    if p.previousEpoch.status == EPOCH_EXECUTING {
      return NoOp(EpochExecuting);
    }
    if !PeriodElapsed(p.rebalance.lastRebalanceCompletedTimestamp, s.observedAt, MIN_REBALANCE_INTERVAL) {
      return NoOp(CooldownActive);
    }
    if active.chainSelector == parent.value.chainSelector && p.tvl.v == 0 {
      return NoOp(ZeroLocalTvl);
    }
    var policy := NewPolicy(cfg);
    var fetched := FetchAndSelectPools(text, keccak, policy, active, body, now);
    if fetched.None? {
      return Fail(FetchFailed);
    }
    if fetched.value.best.None? {
      return NoOp(NoApprovedPool);
    }
    var best := fetched.value.best.value;
    ValidConfigHasDistinctChains(text, cfg);
    var chain := PoolToChainSelector(text, policy, best.chain);
    if chain.None? {
      return Fail(UnknownChain);
    }
    var target := Strategy(keccak(best.project), chain.value);
    if active == target {
      return NoOp(AlreadyOptimal);
    }
    if fetched.value.current.None? {
      return NoOp(CurrentPoolMissing);
    }
    if !NeedRebalance(fetched.value.best, fetched.value.current) {
      return NoOp(BelowThreshold);
    }
    return Submit(Report(parent.value, s.observedAt, InitiateRebalance(p.rebalance.nonce.v, target)));
  }

  // ----- one execution -----

  /** Why an execution ended without a report being handed over, or the report that was. */
  datatype Ending = ReadFailed | Ended(outcome: Outcome) | SubmitFailed(report: Report, error: Reports.SubmitError)

  /** What starts an execution: a schedule, or a log of the subscription to one vault. */
  datatype Start = EpochStart | RebalanceStart(body: Option<Json>) | LogStart(subscribed: EvmConfig, log: Option<Log>)

  function TriggerOf(text: Text, keccak: string -> ProtocolId, cfg: Config, s: Snapshot, start: Start,
                     now: int64): Trigger {
    match start
    case EpochStart => EpochCron
    case RebalanceStart(body) => RebalanceCron(Fetch(text, keccak, cfg, s.parent.rebalance.activeStrategy, body, now))
    case LogStart(subscribed, log) => LogTrigger(subscribed, log)
  }

  method Dispatch(text: Text, keccak: string -> ProtocolId, cfg: Config, s: Snapshot, start: Start, now: int64)
    returns (outcome: Outcome)
    requires ValidConfig(text, cfg) && ValidSnapshot(cfg.evms, s)
    ensures outcome == Execute(text, keccak, cfg, s, TriggerOf(text, keccak, cfg, s, start, now))
  {
    var blocker := BlockedBy(s, cfg.evms);
    if blocker.Some? {
      assert cfg.evms[blocker.value] in cfg.evms;
      return NoOp(Blocked);
    }
    match start
    case EpochStart => outcome := OnEpochCronTrigger(text, cfg, s);
    case RebalanceStart(body) => outcome := OnRebalanceCronTrigger(text, keccak, cfg, s, body, now);
    case LogStart(subscribed, log) =>
      if log.Some? && log.value.event.EpochDepositToStrategySuccess? && !subscribed.isParent {
        outcome := OnEpochDepositToStrategySuccess(text, cfg, s, subscribed.chainSelector, log.value.address,
                                                   log.value.event.epochNonce, log.value.event.amount);
      } else {
        outcome := OnLog(text, cfg, s, subscribed, log);
      }
  }

  /** What handing over a decided report comes to. */
  function EndingOf(outcome: Outcome, abi: Call -> seq<uint8>, now: int64): Ending {
    if !outcome.Submit? then Ended(outcome)
    else
      match Reports.SubmitFault(outcome.report.target, outcome.report.observedAt, abi(outcome.report.call), now)
      case None => Ended(outcome)
      case Some(error) => SubmitFailed(outcome.report, error)
  }

  /** One execution reads once, decides once, and hands over one report or none: exactly the report the
      handlers decide on for the snapshot of these reads, and nothing exactly when there is no snapshot,
      no report, or a report that cannot be sent. */
  method Run(outbox: Reports.Outbox, text: Text, keccak: string -> ProtocolId, abi: Call -> seq<uint8>, cfg: Config,
             readParent: uint64 -> Option<ParentView>, readChild: uint64 -> Option<ChildView>,
             start: Start, observedAt: int64, now: int64)
    returns (ending: Ending)
    requires ValidConfig(text, cfg)
    modifies outbox
    ensures match SnapshotOf(cfg.evms, observedAt, readParent, readChild)
            case None => ending == ReadFailed
            case Some(s) =>
              ending == EndingOf(Execute(text, keccak, cfg, s, TriggerOf(text, keccak, cfg, s, start, now)), abi, now)
    ensures outbox.sent == old(outbox.sent)
                           + if ending.Ended? && ending.outcome.Submit? then [SubmissionOf(ending.outcome.report, abi)] else []
  {
    var snapshot := ReadSnapshot(cfg.evms, observedAt, readParent, readChild);
    if snapshot.None? {
      return ReadFailed;
    }
    var outcome := Dispatch(text, keccak, cfg, snapshot.value, start, now);
    if !outcome.Submit? {
      return Ended(outcome);
    }
    var err := outbox.Submit(outcome.report.target, outcome.report.observedAt, abi(outcome.report.call), now);
    if err.Some? {
      return SubmitFailed(outcome.report, err.value);
    }
    return Ended(outcome);
  }

  function SubmissionOf(r: Report, abi: Call -> seq<uint8>): Reports.Submission {
    Reports.Submission(r.target.chainSelector, r.target.workflowRouterAddress.bytes,
                       if r.observedAt < 0 then []
                       else Reports.Encode(Reports.EnvelopeOf(r.target, r.observedAt, abi(r.call))),
                       r.target.gasLimit)
  }
}
