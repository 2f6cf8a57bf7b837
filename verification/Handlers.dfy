/** The six workflow handlers as decisions over one validated snapshot, and their dispatch. */
module Handlers {
  import opened Results
  import opened Words
  import opened Bindings
  import opened Config
  import opened Snapshot
  import opened PoolRanking
  import opened PoolSelection
  import ParentVault

  const MIN_EPOCH_PERIOD := 3600
  const MIN_REBALANCE_INTERVAL := 3600

  /** The vault call a report carries. */
  datatype Call =
    | CloseEpoch(expectedEpochNonce: uint256, tvl: uint256)
    | CompleteEpochDeposit(expectedEpochNonce: uint256, actual: uint256)
    | ExecuteEpochWithdraw(epochNonce: uint256, amount: uint256)
    | InitiateRebalance(expectedRebalanceNonce: uint256, newStrategy: Strategy)
    | ExecuteRebalance(rebalanceNonce: uint256, newStrategy: Strategy)
    | CompleteRebalance(expectedRebalanceNonce: uint256)

  datatype Report = Report(target: EvmConfig, observedAt: int64, call: Call)

  datatype Reason =
    | RebalanceInProgress
    | PreviousEpochNotClaimable
    | EpochNotOpen
    | EpochTooYoung
    | AccountingRejected(cause: ParentVault.Rejection)
    | WrongSource
    | StaleEvent
    | AmountMismatch
    | ActiveOnParent
    | AlreadyHandled
    | NoCompletedEpoch
    | EpochExecuting
    | CooldownActive
    | ZeroLocalTvl
    | NoApprovedPool
    | AlreadyOptimal
    | CurrentPoolMissing
    | BelowThreshold
    | DestinationMismatch
    | Blocked

  datatype Failure = NoParentChain | UnknownChain | FetchFailed | DecodeFailed | NoEventSignature | UnexpectedEvent

  datatype Outcome = NoOp(reason: Reason) | Fail(error: Failure) | Submit(report: Report)

  // ----- epoch handlers -----

  predicate MatchesExecutingEpoch(p: ParentView, eventNonce: uint256)
    requires ValidParent(p)
  {
    p.currentEpochNonce.v > 1 && p.currentEpochNonce.v - 1 == eventNonce && p.previousEpoch.status == EPOCH_EXECUTING
  }

  function OnEpochCron(text: Text, cfg: Config, s: Snapshot): Outcome
    requires ValidConfig(text, cfg) && ValidSnapshot(cfg.evms, s)
  {
    AssetPrecisionIsUint256(cfg.assetDecimals.value);
    match FindParent(cfg.evms)
    case None => Fail(NoParentChain)
    case Some(parentCfg) =>
      var p := s.parent;
      var epoch := p.currentEpoch;
      if p.rebalance.state != REBALANCE_NONE then NoOp(RebalanceInProgress)
      else if p.currentEpochNonce.v > 1 && p.previousEpoch.status != EPOCH_CLAIMABLE then NoOp(PreviousEpochNotClaimable)
      else if epoch.status != EPOCH_OPEN then NoOp(EpochNotOpen)
      else if !PeriodElapsed(epoch.openedAtTimestamp, s.observedAt, MIN_EPOCH_PERIOD) then NoOp(EpochTooYoung)
      else
        match ActiveTvl(s, parentCfg.chainSelector)
        case None => Fail(UnknownChain)
        case Some(tvl) =>
          var isLocal := p.rebalance.activeStrategy.chainSelector == parentCfg.chainSelector;
          if !Uint256(tvl) then NoOp(AccountingRejected(ParentVault.InvalidInput))
          else
            match ParentVault.Settle(epoch.totalDepositAmount.v, epoch.totalShareBurnAmount.v, p.totalShares.v, tvl.v,
                                     Power(10, cfg.assetDecimals.value), isLocal)
            case Err(cause) => NoOp(AccountingRejected(cause))
            case Ok(_) => Submit(Report(parentCfg, s.observedAt, CloseEpoch(p.currentEpochNonce.v, tvl.v)))
  }

  function OnEpochWithdrawExecuting(text: Text, cfg: Config, s: Snapshot, source: uint64, address: seq<uint8>,
                                    nonce: uint256, amount: uint256): Outcome
    requires ValidConfig(text, cfg) && ValidSnapshot(cfg.evms, s)
  {
    match FindParent(cfg.evms)
    case None => Fail(NoParentChain)
    case Some(parentCfg) =>
      var p := s.parent;
      var active := p.rebalance.activeStrategy.chainSelector;
      if !MatchSource(cfg.evms, address, source, parentCfg.chainSelector) then NoOp(WrongSource)
      else if p.rebalance.state != REBALANCE_NONE then NoOp(RebalanceInProgress)
      else if !MatchesExecutingEpoch(p, nonce) then NoOp(StaleEvent)
      else
        var expected := p.previousEpoch.totalWithdrawClaimAmount.v - p.previousEpoch.totalDepositAmount.v;
        if expected <= 0 || amount == 0 || expected != amount then NoOp(AmountMismatch)
        else if active == parentCfg.chainSelector then NoOp(ActiveOnParent)
        else
          match FindEvmByChainSelector(cfg.evms, active)
          case None => Fail(UnknownChain)
          case Some(strategyCfg) =>
            LookupsAreUnique(text, cfg.evms, strategyCfg);
            if nonce <= s.children[strategyCfg.chainSelector].lastHandledEpochNonce.v then NoOp(AlreadyHandled)
            else Submit(Report(strategyCfg, s.observedAt, ExecuteEpochWithdraw(nonce, amount)))
  }

  function OnEpochDepositSuccess(text: Text, cfg: Config, s: Snapshot, source: uint64, address: seq<uint8>,
                                 nonce: uint256, amount: uint256): Outcome
    requires ValidConfig(text, cfg) && ValidSnapshot(cfg.evms, s)
  {
    match FindParent(cfg.evms)
    case None => Fail(NoParentChain)
    case Some(parentCfg) =>
      var p := s.parent;
      var active := p.rebalance.activeStrategy.chainSelector;
      var epoch := p.previousEpoch;
      if active == parentCfg.chainSelector || !MatchSource(cfg.evms, address, source, active) then NoOp(WrongSource)
      else if !MatchesExecutingEpoch(p, nonce) then NoOp(StaleEvent)
      else
        match ParentVault.Reconcile(epoch.totalDepositAmount.v, epoch.totalWithdrawClaimAmount.v,
                                    epoch.remainingShareMintAmount.v, p.totalShares.v, amount)
        case Err(cause) => NoOp(AccountingRejected(cause))
        case Ok(_) => Submit(Report(parentCfg, s.observedAt, CompleteEpochDeposit(nonce, amount)))
  }

  // ----- rebalance handlers -----

  /** True when moving is worth it; a missing pool or an APY out of range fails closed. */
  predicate NeedRebalance(optimal: Option<Pool>, current: Option<Pool>) {
    && optimal.Some? && current.Some?
    && ValidPoolApy(optimal.value.apy) && ValidPoolApy(current.value.apy)
    && optimal.value.apy - current.value.apy >= DIFFERENTIAL_THRESHOLD
  }

  const DIFFERENTIAL_THRESHOLD: real := 1.0

  /** `fetched` is what fetching and selecting pools returned, nothing if it failed. */
  function OnRebalanceCron(text: Text, keccak: string -> ProtocolId, cfg: Config, s: Snapshot,
                           fetched: Option<Selection>): Outcome
    requires ValidConfig(text, cfg) && ValidSnapshot(cfg.evms, s)
  {
    match FindParent(cfg.evms)
    case None => Fail(NoParentChain)
    case Some(parentCfg) =>
      var p := s.parent;
      var active := p.rebalance.activeStrategy;
      if p.rebalance.state != REBALANCE_NONE then NoOp(RebalanceInProgress)
      else if p.currentEpochNonce.v <= 1 then NoOp(NoCompletedEpoch)
      else if p.previousEpoch.status == EPOCH_EXECUTING then NoOp(EpochExecuting)
      else if !PeriodElapsed(p.rebalance.lastRebalanceCompletedTimestamp, s.observedAt, MIN_REBALANCE_INTERVAL)
      then NoOp(CooldownActive)
      else if active.chainSelector == parentCfg.chainSelector && p.tvl.v == 0 then NoOp(ZeroLocalTvl)
      else
        match fetched
        case None => Fail(FetchFailed)
        case Some(selection) =>
          if selection.best.None? then NoOp(NoApprovedPool)
          else
            var best := selection.best.value;
            match SelectorOf(text, SelectionPolicy(cfg), best.chain)
            case None => Fail(UnknownChain)
            case Some(chain) =>
              var target := Strategy(keccak(best.project), chain);
              if active == target then NoOp(AlreadyOptimal)
              else if selection.current.None? then NoOp(CurrentPoolMissing)
              else if !NeedRebalance(selection.best, selection.current) then NoOp(BelowThreshold)
              else Submit(Report(parentCfg, s.observedAt, InitiateRebalance(p.rebalance.nonce.v, target)))
  }

  /** Driving the child of the active strategy, once the event has been matched. */
  function MoveActiveChild(text: Text, cfg: Config, s: Snapshot, parentCfg: EvmConfig, nonce: uint256, target: Strategy): Outcome
    requires ValidConfig(text, cfg) && ValidSnapshot(cfg.evms, s) && FindParent(cfg.evms) == Some(parentCfg)
  {
    var active := s.parent.rebalance.activeStrategy.chainSelector;
    if active == parentCfg.chainSelector then NoOp(ActiveOnParent)
    else
      match FindEvmByChainSelector(cfg.evms, active)
      case None => Fail(UnknownChain)
      case Some(previousCfg) =>
        LookupsAreUnique(text, cfg.evms, previousCfg);
        if nonce <= s.children[previousCfg.chainSelector].lastHandledRebalanceNonce.v then NoOp(AlreadyHandled)
        else if FindEvmByChainSelector(cfg.evms, target.chainSelector).None? then Fail(UnknownChain)
        else Submit(Report(previousCfg, s.observedAt, ExecuteRebalance(nonce, target)))
  }

  function OnRebalanceInitiated(text: Text, cfg: Config, s: Snapshot, source: uint64, address: seq<uint8>,
                                nonce: uint256, target: Strategy): Outcome
    requires ValidConfig(text, cfg) && ValidSnapshot(cfg.evms, s)
  {
    match FindParent(cfg.evms)
    case None => Fail(NoParentChain)
    case Some(parentCfg) =>
      var rebalance := s.parent.rebalance;
      if !MatchSource(cfg.evms, address, source, parentCfg.chainSelector) then NoOp(WrongSource)
      else if rebalance.nonce.v != nonce then NoOp(StaleEvent)
      else if rebalance.state == REBALANCING && rebalance.pendingStrategy != target then NoOp(DestinationMismatch)
      else MoveActiveChild(text, cfg, s, parentCfg, nonce, target)
  }

  function OnRebalanceDepositSuccess(text: Text, cfg: Config, s: Snapshot, source: uint64, address: seq<uint8>,
                                     nonce: uint256): Outcome
    requires ValidConfig(text, cfg) && ValidSnapshot(cfg.evms, s)
  {
    match FindParent(cfg.evms)
    case None => Fail(NoParentChain)
    case Some(parentCfg) =>
      var rebalance := s.parent.rebalance;
      var pending := rebalance.pendingStrategy.chainSelector;
      if rebalance.state != REBALANCING || rebalance.nonce.v != nonce then NoOp(StaleEvent)
      else if pending == parentCfg.chainSelector || !MatchSource(cfg.evms, address, source, pending) then NoOp(WrongSource)
      else Submit(Report(parentCfg, s.observedAt, CompleteRebalance(nonce)))
  }

  // ----- dispatch -----

  /** The combined log subscription of one chain, dispatching on the event signature. */
  function OnLog(text: Text, cfg: Config, s: Snapshot, subscribed: EvmConfig, log: Option<Log>): Outcome
    requires ValidConfig(text, cfg) && ValidSnapshot(cfg.evms, s)
  {
    var source := subscribed.chainSelector;
    if log.None? || log.value.event.NoSignature? then Fail(NoEventSignature)
    else
      var address := log.value.address;
      match log.value.event
      case RebalanceInitiated(nonce, target) =>
        if subscribed.isParent then OnRebalanceInitiated(text, cfg, s, source, address, nonce, target)
        else Fail(UnexpectedEvent)
      case EpochWithdrawExecuting(nonce, amount) =>
        if subscribed.isParent then OnEpochWithdrawExecuting(text, cfg, s, source, address, nonce, amount)
        else Fail(UnexpectedEvent)
      case RebalanceDepositSuccess(nonce, _) =>
        if subscribed.isParent then Fail(UnexpectedEvent)
        else OnRebalanceDepositSuccess(text, cfg, s, source, address, nonce)
      case EpochDepositToStrategySuccess(nonce, amount) =>
        if subscribed.isParent then Fail(UnexpectedEvent)
        else OnEpochDepositSuccess(text, cfg, s, source, address, nonce, amount)
      case Undecodable(signature) =>
        if subscribed.isParent == (signature.SigRebalanceInitiated? || signature.SigWithdrawExecuting?)
        then Fail(DecodeFailed) else Fail(UnexpectedEvent)
      case OtherSignature => Fail(UnexpectedEvent)
  }

  datatype Trigger =
    | EpochCron
    | RebalanceCron(fetched: Option<Selection>)
    | LogTrigger(subscribed: EvmConfig, log: Option<Log>)

  /** The operational guard around every entry point: one snapshot, no handler while any vault is blocked. */
  function Execute(text: Text, keccak: string -> ProtocolId, cfg: Config, s: Snapshot, trigger: Trigger): Outcome
    requires ValidConfig(text, cfg) && ValidSnapshot(cfg.evms, s)
  {
    if !Operational(s, cfg.evms) then NoOp(Blocked)
    else
      match trigger
      case EpochCron => OnEpochCron(text, cfg, s)
      case RebalanceCron(fetched) => OnRebalanceCron(text, keccak, cfg, s, fetched)
      case LogTrigger(subscribed, log) => OnLog(text, cfg, s, subscribed, log)
  }
}
