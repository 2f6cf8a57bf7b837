/** Whole runs of the protocol: the parent vault, its children, the workflow executing on old reads and on
    delayed, repeated and reordered logs, and reports that are delivered late, repeatedly or never. */
module Protocol {
  import opened Results
  import opened Words
  import opened Bindings
  import opened Config
  import opened Snapshot
  import opened Handlers
  import opened Preflight
  import opened SettlementTheorems
  import V = ParentVault

  // ----- the system -----

  datatype Env = Env(text: Text, keccak: string -> ProtocolId, cfg: Config) {
    ghost predicate Valid() {
      ValidConfig(text, cfg)
    }

    function ParentChain(): uint64 {
      match FindParent(cfg.evms)
      case Some(e) => e.chainSelector
      case None => 0
    }

    function Precision(): uint256 {
      match cfg.assetDecimals
      case Some(d) => if d <= 77 then AssetPrecisionIsUint256(d); Power(10, d) else 1
      case None => 1
    }
  }

  /** One close as it was settled, the chain of the strategy at that time, and all fees minted before it. */
  datatype Closed = Closed(epoch: SettledEpoch, chain: uint64, feesBefore: nat)

  /** A nonce handled on a child: a withdrawal of `amount`, or a rebalance to `newStrategy`. */
  datatype Withdrawal = Withdrawal(chain: uint64, nonce: uint256, amount: uint256)
  datatype Move = Move(chain: uint64, nonce: uint256, newStrategy: Strategy)

  /** What has happened on chain: every close, the strategy active under every rebalance nonce, and the
      rebalance initiated under it. */
  datatype Facts = Facts(ledger: seq<Closed>, actives: map<uint256, Strategy>, initiations: map<uint256, Strategy>)

  /** The last nonce a child has handled. */
  function Handled(nonces: map<uint64, uint256>, chain: uint64): uint256 {
    if chain in nonces then nonces[chain] else 0
  }

  datatype World = World(
    parent: V.State,
    history: seq<V.State>,
    logs: set<Event>,
    reports: set<Report>,
    handledEpochs: map<uint64, uint256>,
    handledRebalances: map<uint64, uint256>,
    facts: Facts,
    fees: nat,
    withdrawals: seq<Withdrawal>,
    moves: seq<Move>)
  {
    function Moved(p: V.State): World {
      this.(parent := p, history := history + [p])
    }
  }

  /** A new vault, with its first strategy set on the parent chain. */
  function Deployed(env: Env, protocolId: ProtocolId, now: uint256): World {
    var active := Strategy(protocolId, env.ParentChain());
    var epoch := V.EMPTY_EPOCH.(status := EPOCH_OPEN, openedAtTimestamp := now);
    var p := V.State(1, map[1 := epoch], Rebalance(1, REBALANCE_NONE, active, V.NO_STRATEGY, now), 0);
    World(p, [p], {}, {}, map[], map[], Facts([], map[1 := active], map[]), 0, [], [])
  }

  // ----- steps -----

  datatype Step =
    | UserActivity(deposit: uint256, burn: uint256)
    | Claim(nonce: uint256, claimed: Epoch<uint256>)
    | Execution(view: nat, snapshot: Snapshot, trigger: Trigger)
    | Delivery(report: Report, adapterOut: uint256, isSupported: bool, now: uint256)
    | ChildProgress(chain: uint64, epochNonce: uint256, rebalanceNonce: uint256)
    | WithdrawalArrives(nonce: uint256, received: uint256)
    | RebalanceArrives(newStrategy: Strategy, now: uint256)

  /** What claiming may change of an epoch. */
  predicate ClaimsOnly(before: Epoch<uint256>, after: Epoch<uint256>) {
    after == before.(remainingDepositClaimAmount := after.remainingDepositClaimAmount,
                     remainingShareMintAmount := after.remainingShareMintAmount,
                     remainingShareBurnAmount := after.remainingShareBurnAmount,
                     remainingWithdrawClaimAmount := after.remainingWithdrawClaimAmount)
  }

  /** A log from the parent vault's address on its chain was emitted by it; anything else may say anything. */
  predicate Genuine(env: Env, w: World, trigger: Trigger) {
    trigger.LogTrigger? && trigger.log.Some?
    && MatchSource(env.cfg.evms, trigger.log.value.address, trigger.subscribed.chainSelector, env.ParentChain()) ==>
      trigger.log.value.event in w.logs
  }

  /** An execution may see any past state of the parent and anything at all of the children. */
  predicate Enabled(env: Env, w: World, step: Step) {
    match step
    case UserActivity(_, _) => w.parent.CurrentEpoch().status == EPOCH_OPEN
    case Claim(nonce, claimed) =>
      w.parent.EpochAt(nonce).status == EPOCH_CLAIMABLE && ClaimsOnly(w.parent.EpochAt(nonce), claimed)
    case Execution(view, snapshot, trigger) =>
      && view < |w.history| && Reads(snapshot, w.history[view])
      && ValidSnapshot(env.cfg.evms, snapshot) && Genuine(env, w, trigger)
    case Delivery(report, _, _, _) => report in w.reports
    case ChildProgress(chain, epochNonce, rebalanceNonce) =>
      epochNonce >= Handled(w.handledEpochs, chain) && rebalanceNonce >= Handled(w.handledRebalances, chain)
    case WithdrawalArrives(_, _) => true
    case RebalanceArrives(_, _) => true
  }

  function AfterExecution(w: World, outcome: Outcome): World {
    if outcome.Submit? then w.(reports := w.reports + {outcome.report}) else w
  }

  /** The active strategy is on the parent's own chain. */
  predicate IsLocal(env: Env, w: World) {
    w.parent.rebalance.activeStrategy.chainSelector == env.ParentChain()
  }

  function Close(env: Env, w: World, nonce: uint256, tvl: uint256, adapterOut: uint256, now: uint256)
    : Result<(V.State, V.Settlement), V.Rejection>
  {
    V.CloseEpoch(w.parent, nonce, tvl, env.Precision(), IsLocal(env, w), adapterOut, now)
  }

  /** The current epoch as it enters the ledger, settled as delivered in full. */
  function Entry(w: World, tvl: uint256, isLocal: bool, s: V.Settlement): Closed {
    var epoch := w.parent.CurrentEpoch();
    Closed(SettledEpoch(epoch.totalDepositAmount, epoch.totalShareBurnAmount, w.parent.totalShares, tvl, isLocal,
                        s, s.netFlow, s.newShares),
           w.parent.rebalance.activeStrategy.chainSelector, w.fees)
  }

  /** What a remote net withdrawal asks of the active child, zero for any other close. */
  function Owed(isLocal: bool, s: V.Settlement): uint256 {
    if !isLocal && -TWO_256 < s.netFlow < 0 then -s.netFlow else 0
  }

  function RecordClose(w: World, p: V.State, c: Closed, owed: uint256): World {
    w.Moved(p).(facts := w.facts.(ledger := w.facts.ledger + [c]),
                logs := w.logs + if owed == 0 then {} else {EpochWithdrawExecuting(w.parent.epochNonce, owed)})
  }

  function AfterClose(env: Env, w: World, nonce: uint256, tvl: uint256, adapterOut: uint256, now: uint256): World {
    match Close(env, w, nonce, tvl, adapterOut, now)
    case Err(_) => w
    case Ok((p, s)) => RecordClose(w, p, Entry(w, tvl, IsLocal(env, w), s), Owed(IsLocal(env, w), s))
  }

  /** The last close, with what was finally delivered and minted. */
  function Reconciled(ledger: seq<Closed>, actual: uint256, minted: uint256): seq<Closed> {
    if ledger == [] then []
    else
      var last := ledger[|ledger| - 1];
      ledger[|ledger| - 1 := last.(epoch := last.epoch.(delivered := actual, minted := minted))]
  }

  function AfterDelivery(w: World, nonce: uint256, actual: uint256): World {
    match V.CompleteEpochDeposit(w.parent, nonce, actual)
    case Err(_) => w
    case Ok((p, minted)) => w.Moved(p).(facts := w.facts.(ledger := Reconciled(w.facts.ledger, actual, minted)))
  }

  /** The bookkeeping of a new rebalance nonce. */
  function AfterFinalize(w: World, p: V.State, fee: nat): World {
    w.Moved(p).(fees := w.fees + fee,
               facts := w.facts.(actives := w.facts.actives[p.rebalance.nonce := p.rebalance.activeStrategy]))
  }

  function AfterInitiate(env: Env, w: World, nonce: uint256, target: Strategy, isSupported: bool, now: uint256): World {
    match V.InitiateRebalance(w.parent, nonce, target, env.ParentChain(), isSupported, now)
    case Err(_) => w
    case Ok((p, fee)) =>
      var finalized := AfterFinalize(w, p, fee);
      finalized.(facts := finalized.facts.(initiations := w.facts.initiations[nonce := target]),
                 logs := w.logs + {RebalanceInitiated(nonce, target)})
  }

  function AfterComplete(env: Env, w: World, nonce: uint256, now: uint256): World {
    match V.CompleteRebalance(w.parent, nonce, env.ParentChain(), now)
    case Err(_) => w
    case Ok((p, fee)) => AfterFinalize(w, p, fee)
  }

  function AfterWithdraw(w: World, chain: uint64, nonce: uint256, amount: uint256): World {
    if amount == 0 || nonce <= Handled(w.handledEpochs, chain) then w
    else w.(handledEpochs := w.handledEpochs[chain := nonce], withdrawals := w.withdrawals + [Withdrawal(chain, nonce, amount)])
  }

  function AfterMove(w: World, chain: uint64, nonce: uint256, target: Strategy): World {
    if nonce <= Handled(w.handledRebalances, chain) then w
    else w.(handledRebalances := w.handledRebalances[chain := nonce], moves := w.moves + [Move(chain, nonce, target)])
  }

  function Deliver(env: Env, w: World, r: Report, adapterOut: uint256, isSupported: bool, now: uint256): World {
    match r.call
    case CloseEpoch(nonce, tvl) => AfterClose(env, w, nonce, tvl, adapterOut, now)
    case CompleteEpochDeposit(nonce, actual) => AfterDelivery(w, nonce, actual)
    case InitiateRebalance(nonce, target) => AfterInitiate(env, w, nonce, target, isSupported, now)
    case CompleteRebalance(nonce) => AfterComplete(env, w, nonce, now)
    case ExecuteEpochWithdraw(nonce, amount) => AfterWithdraw(w, r.target.chainSelector, nonce, amount)
    case ExecuteRebalance(nonce, target) => AfterMove(w, r.target.chainSelector, nonce, target)
  }

  ghost function Next(env: Env, w: World, step: Step): World
    requires env.Valid() && Enabled(env, w, step)
  {
    match step
    case UserActivity(deposit, burn) =>
      w.Moved(w.parent.WithEpoch(w.parent.epochNonce,
                                 w.parent.CurrentEpoch().(totalDepositAmount := deposit, totalShareBurnAmount := burn)))
    case Claim(nonce, claimed) => w.Moved(w.parent.WithEpoch(nonce, claimed))
    case Execution(_, snapshot, trigger) =>
      AfterExecution(w, Execute(env.text, env.keccak, env.cfg, snapshot, trigger))
    case Delivery(r, adapterOut, isSupported, now) => Deliver(env, w, r, adapterOut, isSupported, now)
    case ChildProgress(chain, epochNonce, rebalanceNonce) =>
      w.(handledEpochs := w.handledEpochs[chain := epochNonce],
         handledRebalances := w.handledRebalances[chain := rebalanceNonce])
    case WithdrawalArrives(nonce, received) =>
      (match V.ReceiveNetWithdraw(w.parent, nonce, received)
       case Err(_) => w
       case Ok(p) => w.Moved(p))
    case RebalanceArrives(newStrategy, now) =>
      (match V.FinalizeRebalance(w.parent, w.parent.rebalance.nonce, newStrategy, false, now)
       case Err(_) => w
       case Ok((p, fee)) => AfterFinalize(w, p, fee))
  }

  // ----- runs -----

  ghost predicate IsRun(env: Env, worlds: seq<World>, steps: seq<Step>) {
    && env.Valid() && |worlds| == |steps| + 1
    && (exists protocolId, now :: worlds[0] == Deployed(env, protocolId, now))
    && forall i :: 0 <= i < |steps| ==> Enabled(env, worlds[i], steps[i]) && worlds[i + 1] == Next(env, worlds[i], steps[i])
  }
}
