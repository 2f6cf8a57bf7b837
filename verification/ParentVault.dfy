/** The settlement side of the ParentVault contract in checked uint256 arithmetic: the reference that
    the off-chain accounting has to mirror, and the vault that protocol runs act on. */
module ParentVault {
  import opened Results
  import opened Words
  import opened Bindings
  import opened Quotients

  const SHARE_PRECISION: uint256 := 1_000_000_000_000_000_000
  const MIN_EPOCH_PERIOD: uint256 := 3600
  const MIN_REBALANCE_PERIOD: uint256 := 3600
  const SECONDS_PER_YEAR: uint256 := 31_536_000
  const NO_STRATEGY := Strategy(0, 0)
  const EMPTY_EPOCH: Epoch<uint256> := Epoch(0, 0, 0, 0, 0, 0, 0, 0, EPOCH_NONE)

  /** Why a settlement step refuses, named once for the contract's reverts and the workflow's errors. */
  datatype Rejection =
    | InvalidInput
    | DivisionByZero
    | MulDivOverflow
    | EmptyEpoch
    | ZeroTvlWithOutstandingShares
    | ZeroPricePerShare
    | ShareBurnWithZeroTotalShares
    | NetFlowExceedsInt256
    | MinimumSharesOverflow
    | DepositWouldMintZeroShares
    | RemoteWithdrawTooSmall
    | TotalSharesOverflow
    | TotalSharesUnderflow
    | EpochNotNetDeposit
    | EpochNotNetWithdraw
    | InvalidActualDepositAmount
    | InvalidEpochNonce
    | InvalidRebalanceNonce
    | NoCompletedEpoch
    | RebalanceInProgress
    | NoRebalanceInProgress
    | CannotCompleteLocalRebalance
    | RebalanceTooSoon
    | SameStrategy
    | UnsupportedStrategy
    | PreviousEpochNotClaimable
    | PreviousEpochExecuting
    | EpochNotOpen
    | EpochTooShort
    | EpochNotExecuting
    | ArithmeticPanic

  // ----- checked arithmetic -----

  function CheckedAdd(x: uint256, y: uint256, panic: Rejection): (r: Result<uint256, Rejection>) {
    if x + y < TWO_256 then Ok(x + y) else Err(panic)
  }

  function CheckedSub(x: uint256, y: uint256, panic: Rejection): (r: Result<uint256, Rejection>) {
    if y <= x then Ok(x - y) else Err(panic)
  }

  function CheckedMul(x: uint256, y: uint256, panic: Rejection): (r: Result<uint256, Rejection>) {
    var product: int := x * y;
    if 0 <= product < TWO_256 then Ok(product) else Err(panic)
  }

  /** Full-precision x * y / d, rounding down: the product itself may exceed uint256. */
  function MulDivDown(x: uint256, y: uint256, d: uint256): (r: Result<uint256, Rejection>)
    ensures r.Ok? ==> d > 0 && r.value * d <= x * y < r.value * d + d
  {
    if d == 0 then Err(DivisionByZero)
    else
      QuotientOfProduct(x, y, d);
      var quotient := x * y / d;
      if quotient < TWO_256 then Ok(quotient) else Err(MulDivOverflow)
  }

  // ----- epoch accounting -----

  /** What closing an epoch decides. */
  datatype Settlement = Settlement(totalWithdraw: uint256, newShares: uint256, netFlow: int, totalShares: uint256)

  /** The assets owed to burned shares and the shares owed to deposits at the given TVL. */
  function Allocate(deposit: uint256, burn: uint256, totalShares: uint256, tvl: uint256, assetPrecision: uint256)
    : Result<(uint256, uint256), Rejection>
  {
    if totalShares != 0 then
      if tvl == 0 then Err(ZeroTvlWithOutstandingShares)
      else
        var price :- MulDivDown(tvl, SHARE_PRECISION, totalShares);
        if price == 0 then Err(ZeroPricePerShare)
        else
          var totalWithdraw :- MulDivDown(burn, tvl, totalShares);
          var newShares :- MulDivDown(deposit, totalShares, tvl);
          Ok((totalWithdraw, newShares))
    else if burn != 0 then Err(ShareBurnWithZeroTotalShares)
    else
      var newShares :- MulDivDown(deposit, SHARE_PRECISION, assetPrecision);
      Ok((0, newShares))
  }

  /** The checks and the supply update that follow pricing. */
  function SettleAllocated(deposit: uint256, burn: uint256, totalShares: uint256, totalWithdraw: uint256,
                           newShares: uint256, assetPrecision: uint256, isLocal: bool)
    : Result<Settlement, Rejection>
  {
    if deposit >= TWO_255 || totalWithdraw >= TWO_255 then Err(NetFlowExceedsInt256)
    else
      var minimum :- if deposit == 0 then Ok(0) else CheckedMul(newShares, assetPrecision, MinimumSharesOverflow);
      if minimum < deposit then Err(DepositWouldMintZeroShares)
      else if !isLocal && 0 < totalWithdraw - deposit < assetPrecision then Err(RemoteWithdrawTooSmall)
      else
        var minted :- CheckedAdd(totalShares, newShares, TotalSharesOverflow);
        var remaining :- CheckedSub(minted, burn, TotalSharesUnderflow);
        Ok(Settlement(totalWithdraw, newShares, deposit - totalWithdraw, remaining))
  }

  /** The accounting part of closeEpoch. The minimum asset amount is one whole asset unit. */
  function Settle(deposit: uint256, burn: uint256, totalShares: uint256, tvl: uint256,
                  assetPrecision: uint256, isLocal: bool)
    : Result<Settlement, Rejection>
  {
    if deposit == 0 && burn == 0 then Err(EmptyEpoch)
    else
      var (totalWithdraw, newShares) :- Allocate(deposit, burn, totalShares, tvl, assetPrecision);
      SettleAllocated(deposit, burn, totalShares, totalWithdraw, newShares, assetPrecision, isLocal)
  }

  /** The allocation scaled to the deposits that arrived, taken off the share supply. */
  function ScaleAllocation(deposit: uint256, effective: uint256, mint: uint256, totalShares: uint256)
    : Result<uint256, Rejection>
  {
    var adjusted :- MulDivDown(mint, effective, deposit);
    if adjusted == 0 then Err(DepositWouldMintZeroShares)
    else
      var reduction :- CheckedSub(mint, adjusted, ArithmeticPanic);
      var _ :- CheckedSub(totalShares, reduction, TotalSharesUnderflow);
      Ok(adjusted)
  }

  /** The share allocation left to an epoch of which only `actual` assets arrived. */
  function Reconcile(deposit: uint256, withdraw: uint256, mint: uint256, totalShares: uint256, actual: uint256)
    : Result<uint256, Rejection>
  {
    if deposit <= withdraw then Err(EpochNotNetDeposit)
    else if actual == 0 || actual > deposit - withdraw then Err(InvalidActualDepositAmount)
    else if actual == deposit - withdraw then Ok(mint)
    else
      var shortfall := deposit - withdraw - actual;
      ScaleAllocation(deposit, deposit - shortfall, mint, totalShares)
  }

  // ----- vault state -----

  datatype State = State(
    epochNonce: uint256,
    epochs: map<uint256, Epoch<uint256>>,
    rebalance: Rebalance<uint256>,
    totalShares: uint256)
  {
    /** Mapping storage reads as zero where nothing was written. */
    function EpochAt(nonce: uint256): Epoch<uint256> {
      if nonce in epochs then epochs[nonce] else EMPTY_EPOCH
    }

    function CurrentEpoch(): Epoch<uint256> {
      EpochAt(epochNonce)
    }

    function PreviousEpoch(): Epoch<uint256> {
      if epochNonce == 0 then EMPTY_EPOCH else EpochAt(epochNonce - 1)
    }

    function WithEpoch(nonce: uint256, epoch: Epoch<uint256>): State {
      this.(epochs := epochs[nonce := epoch])
    }
  }

  /** closeEpoch: settle the current epoch at `tvl` and open the next one. `adapterOut` is what a local
      strategy returned for a net withdrawal. */
  function CloseEpoch(s: State, expectedNonce: uint256, tvl: uint256, assetPrecision: uint256,
                      isLocal: bool, adapterOut: uint256, now: uint256)
    : Result<(State, Settlement), Rejection>
  {
    if expectedNonce != s.epochNonce then Err(InvalidEpochNonce)
    else if s.rebalance.state != REBALANCE_NONE then Err(RebalanceInProgress)
    else
      var previousNonce :- CheckedSub(s.epochNonce, 1, ArithmeticPanic);
      if previousNonce != 0 && s.PreviousEpoch().status != EPOCH_CLAIMABLE then Err(PreviousEpochNotClaimable)
      else
        var epoch := s.CurrentEpoch();
        if epoch.status != EPOCH_OPEN then Err(EpochNotOpen)
        else
          var deadline :- CheckedAdd(epoch.openedAtTimestamp, MIN_EPOCH_PERIOD, ArithmeticPanic);
          if now < deadline then Err(EpochTooShort)
          else
            var settled :- Settle(epoch.totalDepositAmount, epoch.totalShareBurnAmount, s.totalShares, tvl,
                                  assetPrecision, isLocal);
            var claim :- if isLocal && settled.netFlow < 0
                         then CheckedAdd(epoch.totalDepositAmount, adapterOut, ArithmeticPanic)
                         else Ok(settled.totalWithdraw);
            var nextNonce :- CheckedAdd(s.epochNonce, 1, ArithmeticPanic);
            var closed := epoch.(totalWithdrawClaimAmount := claim,
                                 remainingWithdrawClaimAmount := claim,
                                 remainingDepositClaimAmount := epoch.totalDepositAmount,
                                 remainingShareMintAmount := settled.newShares,
                                 remainingShareBurnAmount := epoch.totalShareBurnAmount,
                                 status := if isLocal || settled.netFlow == 0 then EPOCH_CLAIMABLE else EPOCH_EXECUTING);
            var next := s.EpochAt(nextNonce).(status := EPOCH_OPEN, openedAtTimestamp := now);
            Ok((s.WithEpoch(s.epochNonce, closed).WithEpoch(nextNonce, next)
                .(epochNonce := nextNonce, totalShares := settled.totalShares), settled))
  }

  /** completeEpochDeposit: accept the amount that reached the remote strategy. */
  function CompleteEpochDeposit(s: State, expectedNonce: uint256, actual: uint256): Result<(State, uint256), Rejection> {
    var nonce :- CheckedSub(s.epochNonce, 1, ArithmeticPanic);
    if expectedNonce != nonce then Err(InvalidEpochNonce)
    else if s.epochNonce == 1 then Err(NoCompletedEpoch)
    else
      var epoch := s.PreviousEpoch();
      var adjusted :- Reconcile(epoch.totalDepositAmount, epoch.totalWithdrawClaimAmount,
                                epoch.remainingShareMintAmount, s.totalShares, actual);
      if epoch.status != EPOCH_EXECUTING then Err(EpochNotExecuting)
      else
        var reduction :- CheckedSub(epoch.remainingShareMintAmount, adjusted, ArithmeticPanic);
        var totalShares :- CheckedSub(s.totalShares, reduction, TotalSharesUnderflow);
        Ok((s.WithEpoch(nonce, epoch.(remainingShareMintAmount := adjusted, status := EPOCH_CLAIMABLE))
            .(totalShares := totalShares), adjusted))
  }

  /** The receipt of a remote net withdrawal, which replaces the provisional claim amount. */
  function ReceiveNetWithdraw(s: State, epochNonce: uint256, received: uint256): Result<State, Rejection> {
    var nonce :- CheckedSub(s.epochNonce, 1, ArithmeticPanic);
    if epochNonce != nonce then Err(InvalidEpochNonce)
    else
      var epoch := s.PreviousEpoch();
      if epoch.totalDepositAmount >= epoch.totalWithdrawClaimAmount then Err(EpochNotNetWithdraw)
      else
        var claim :- CheckedAdd(epoch.totalDepositAmount, received, ArithmeticPanic);
        if epoch.status != EPOCH_EXECUTING then Err(EpochNotExecuting)
        else Ok(s.WithEpoch(nonce, epoch.(totalWithdrawClaimAmount := claim,
                                          remainingWithdrawClaimAmount := claim,
                                          status := EPOCH_CLAIMABLE)))
  }

  /** The management fee minted when a rebalance completes: 1% a year, rounded up, at most one year. */
  function ManagementFee(totalShares: uint256, lastCompleted: uint256, now: uint256): Result<uint256, Rejection> {
    var elapsed :- CheckedSub(now, lastCompleted, ArithmeticPanic);
    var charged: int := if elapsed > SECONDS_PER_YEAR then SECONDS_PER_YEAR else elapsed;
    var rate := 100 * charged;
    var denominator: int := 10_000 * SECONDS_PER_YEAR;
    var fee: int := (totalShares * rate + denominator - 1) / denominator;
    if 0 <= fee < TWO_256 then Ok(fee) else Err(MulDivOverflow)
  }

  /** Activate `newStrategy` and move on to the next rebalance nonce; returns the fee minted. */
  function FinalizeRebalance(s: State, expectedNonce: uint256, newStrategy: Strategy, isLocalToLocal: bool, now: uint256)
    : Result<(State, uint256), Rejection>
  {
    var rebalance := s.rebalance;
    if expectedNonce != rebalance.nonce then Err(InvalidRebalanceNonce)
    else if !isLocalToLocal && rebalance.state != REBALANCING then Err(NoRebalanceInProgress)
    else
      var nextNonce :- CheckedAdd(rebalance.nonce, 1, ArithmeticPanic);
      var fee :- ManagementFee(s.totalShares, rebalance.lastRebalanceCompletedTimestamp, now);
      var totalShares :- CheckedAdd(s.totalShares, fee, ArithmeticPanic);
      var finalized := Rebalance(nextNonce,
                                 if isLocalToLocal then rebalance.state else REBALANCE_NONE,
                                 newStrategy,
                                 if isLocalToLocal then rebalance.pendingStrategy else NO_STRATEGY,
                                 now);
      Ok((s.(rebalance := finalized, totalShares := totalShares), fee))
  }

  /** initiateRebalance. A local-to-local rebalance is finalized in the same call. */
  function InitiateRebalance(s: State, expectedNonce: uint256, newStrategy: Strategy, thisChain: uint64,
                             isSupported: bool, now: uint256)
    : Result<(State, uint256), Rejection>
  {
    var rebalance := s.rebalance;
    if expectedNonce != rebalance.nonce then Err(InvalidRebalanceNonce)
    else if rebalance.state != REBALANCE_NONE then Err(RebalanceInProgress)
    else
      var deadline :- CheckedAdd(rebalance.lastRebalanceCompletedTimestamp, MIN_REBALANCE_PERIOD, ArithmeticPanic);
      if now < deadline then Err(RebalanceTooSoon)
      else if rebalance.activeStrategy == newStrategy then Err(SameStrategy)
      else if !isSupported then Err(UnsupportedStrategy)
      else if s.epochNonce == 1 then Err(NoCompletedEpoch)
      else
        var previousNonce :- CheckedSub(s.epochNonce, 1, ArithmeticPanic);
        if s.EpochAt(previousNonce).status == EPOCH_EXECUTING then Err(PreviousEpochExecuting)
        else if rebalance.activeStrategy.chainSelector == thisChain == newStrategy.chainSelector then
          FinalizeRebalance(s, expectedNonce, newStrategy, true, now)
        else
          Ok((s.(rebalance := rebalance.(state := REBALANCING, pendingStrategy := newStrategy)), 0))
  }

  /** completeRebalance: activate the pending strategy of a child chain. */
  function CompleteRebalance(s: State, expectedNonce: uint256, thisChain: uint64, now: uint256)
    : Result<(State, uint256), Rejection>
  {
    if s.rebalance.pendingStrategy.chainSelector == thisChain then Err(CannotCompleteLocalRebalance)
    else FinalizeRebalance(s, expectedNonce, s.rebalance.pendingStrategy, false, now)
  }
}
