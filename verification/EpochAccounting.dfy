/** The off-chain epoch accounting on heap integers. Neither entry point has a modifies clause, so no
    input integer changes, and every integer returned is fresh. */
module EpochAccounting {
  import opened Results
  import opened Words
  import opened Bindings
  import opened BigIntegers
  import opened Quotients
  import opened ParentVault

  class Accounting {
    var TotalWithdraw: BigInt
    var NewShares: BigInt?
    var NetFlow: BigInt?
    var TotalShares: BigInt?

    constructor (totalWithdraw: BigInt)
      ensures TotalWithdraw == totalWithdraw && NewShares == null && NetFlow == null && TotalShares == null
    {
      TotalWithdraw, NewShares, NetFlow, TotalShares := totalWithdraw, null, null, null;
    }

    /** The integers filled in are exactly those of `s`. */
    predicate Holds(s: Settlement)
      reads this, TotalWithdraw, NewShares, NetFlow, TotalShares
    {
      && NewShares != null && NetFlow != null && TotalShares != null
      && TotalWithdraw.value == s.totalWithdraw && NewShares.value == s.newShares
      && NetFlow.value == s.netFlow && TotalShares.value == s.totalShares
    }
  }

  predicate CloseInputsValid(epoch: Epoch<BigInt?>, totalShares: BigInt?, tvl: BigInt?, assetDecimals: uint8)
    reads epoch.totalDepositAmount, epoch.totalShareBurnAmount, totalShares, tvl
  {
    Uint256(epoch.totalDepositAmount) && Uint256(epoch.totalShareBurnAmount)
    && Uint256(totalShares) && Uint256(tvl) && assetDecimals <= 77
  }

  lemma WidthIsInterval(v: BigInt?)
    ensures Uint256(v) <==> v != null && IsUint256(v.value)
  {
    if v != null {
      BitLenIsWordWidth(v.value);
    }
  }

  method MulDivDownBig(x: BigInt, y: BigInt, denominator: BigInt) returns (result: BigInt?, err: Option<Rejection>)
    ensures result == null <==> err.Some?
    ensures err == Some(DivisionByZero) <==> denominator.value == 0
    ensures result != null ==> fresh(result) && result.value == Truncated(x.value * y.value, denominator.value)
    ensures denominator.value != 0 ==>
              (err == Some(MulDivOverflow) <==> !IsUint256(Truncated(x.value * y.value, denominator.value)))
    ensures IsUint256(x.value) && IsUint256(y.value) && IsUint256(denominator.value) ==>
              MulDivDown(x.value, y.value, denominator.value) ==
              if result == null then Err(err.value) else Ok(result.value)
  {
    if denominator.Sign() == 0 {
      return null, Some(DivisionByZero);
    }
    var r := new BigInt(0);
    r.Mul(x, y);
    r.Quo(r, denominator);
    WidthIsInterval(r);
    if !Uint256(r) {
      return null, Some(MulDivOverflow);
    }
    return r, None;
  }

  /** The pricing half of a close: assets owed to the burn and shares owed to the deposit. */
  method AllocateBig(deposit: BigInt, burn: BigInt, totalShares: BigInt, tvl: BigInt, assetPrecision: BigInt)
    returns (withdraw: BigInt?, newShares: BigInt?, err: Option<Rejection>)
    requires IsUint256(deposit.value) && IsUint256(burn.value) && IsUint256(totalShares.value)
    requires IsUint256(tvl.value) && IsUint256(assetPrecision.value)
    ensures err.None? <==> withdraw != null && newShares != null
    ensures err.None? ==> fresh(withdraw) && fresh(newShares) && withdraw != newShares
    ensures match Allocate(deposit.value, burn.value, totalShares.value, tvl.value, assetPrecision.value)
            case Err(e) => err == Some(e)
            case Ok(shares) =>
              withdraw != null && newShares != null && withdraw.value == shares.0 && newShares.value == shares.1
  {
    withdraw := new BigInt(0);
    newShares := null;
    var sharePrecision := new BigInt(SHARE_PRECISION);
    if totalShares.Sign() != 0 {
      if tvl.Sign() == 0 {
        return null, null, Some(ZeroTvlWithOutstandingShares);
      }
      var price;
      price, err := MulDivDownBig(tvl, sharePrecision, totalShares);
      if err.Some? {
        return null, null, err;
      }
      if price.Sign() == 0 {
        return null, null, Some(ZeroPricePerShare);
      }
      withdraw, err := MulDivDownBig(burn, tvl, totalShares);
      if err.Some? {
        return null, null, err;
      }
      newShares, err := MulDivDownBig(deposit, totalShares, tvl);
    } else {
      if burn.Sign() != 0 {
        return null, null, Some(ShareBurnWithZeroTotalShares);
      }
      newShares, err := MulDivDownBig(deposit, sharePrecision, assetPrecision);
    }
  }

  /** Refuses a deposit of which the smallest admissible part would receive no share. */
  method CheckMinimumDeposit(deposit: BigInt, newShares: BigInt, assetPrecision: BigInt) returns (err: Option<Rejection>)
    requires IsUint256(deposit.value) && IsUint256(newShares.value) && IsUint256(assetPrecision.value)
    ensures err == if deposit.value == 0 then None else
                   match CheckedMul(newShares.value, assetPrecision.value, MinimumSharesOverflow)
                   case Err(e) => Some(e)
                   case Ok(shares) => if shares < deposit.value then Some(DepositWouldMintZeroShares) else None
  {
    if deposit.Sign() != 0 {
      var minimumDepositShares := new BigInt(0);
      minimumDepositShares.Mul(newShares, assetPrecision);
      WidthIsInterval(minimumDepositShares);
      if !Uint256(minimumDepositShares) {
        return Some(MinimumSharesOverflow);
      }
      if minimumDepositShares.Cmp(deposit) < 0 {
        return Some(DepositWouldMintZeroShares);
      }
    }
    return None;
  }

  /** Refuses a remote net withdrawal below one whole asset unit. */
  method CheckRemoteWithdraw(netFlow: BigInt, assetPrecision: BigInt, isLocal: bool) returns (err: Option<Rejection>)
    ensures err == if !isLocal && 0 < -netFlow.value < assetPrecision.value then Some(RemoteWithdrawTooSmall) else None
  {
    if !isLocal && netFlow.Sign() < 0 {
      var withdraw := new BigInt(0);
      withdraw.Neg(netFlow);
      if withdraw.Cmp(assetPrecision) < 0 {
        return Some(RemoteWithdrawTooSmall);
      }
    }
    return None;
  }

  /** The new share supply: old plus minted minus burned, computed in place. */
  method UpdateTotalShares(totalShares: BigInt, newShares: BigInt, burn: BigInt)
    returns (result: BigInt?, err: Option<Rejection>)
    requires IsUint256(totalShares.value) && IsUint256(newShares.value) && IsUint256(burn.value)
    ensures result == null <==> err.Some?
    ensures result != null ==> fresh(result) && IsUint256(result.value)
    ensures result != null ==> result.value == totalShares.value + newShares.value - burn.value
    ensures err == if totalShares.value + newShares.value >= TWO_256 then Some(TotalSharesOverflow)
                   else if totalShares.value + newShares.value < burn.value then Some(TotalSharesUnderflow)
                   else None
  {
    result := new BigInt(0);
    result.Add(totalShares, newShares);
    WidthIsInterval(result);
    if !Uint256(result) {
      return null, Some(TotalSharesOverflow);
    }
    result.Sub(result, burn);
    if result.Sign() < 0 {
      return null, Some(TotalSharesUnderflow);
    }
    return result, None;
  }

  /** The checks after pricing, filling in the accounting record step by step. */
  method SettleAllocatedBig(deposit: BigInt, burn: BigInt, totalShares: BigInt, withdraw: BigInt, newShares: BigInt,
                            assetPrecision: BigInt, isLocal: bool)
    returns (accounting: Accounting?, err: Option<Rejection>)
    requires IsUint256(deposit.value) && IsUint256(burn.value) && IsUint256(totalShares.value)
    requires IsUint256(withdraw.value) && IsUint256(newShares.value) && IsUint256(assetPrecision.value)
    ensures accounting == null <==> err.Some?
    ensures match SettleAllocated(deposit.value, burn.value, totalShares.value, withdraw.value, newShares.value,
                                  assetPrecision.value, isLocal)
            case Err(e) => err == Some(e)
            case Ok(s) => accounting != null && accounting.Holds(s)
    ensures accounting != null ==>
              && fresh(accounting) && accounting.TotalWithdraw == withdraw && accounting.NewShares == newShares
              && accounting.NetFlow != null && fresh(accounting.NetFlow)
              && accounting.TotalShares != null && fresh(accounting.TotalShares)
  {
    accounting := new Accounting(withdraw);
    accounting.NewShares := newShares;

    BitLenIsWordWidth(deposit.value);
    BitLenIsWordWidth(withdraw.value);
    if BitLen(deposit.value) > 255 || BitLen(withdraw.value) > 255 {
      return null, Some(NetFlowExceedsInt256);
    }
    var netFlow := new BigInt(0);
    netFlow.Sub(deposit, withdraw);
    accounting.NetFlow := netFlow;
    err := CheckMinimumDeposit(deposit, newShares, assetPrecision);
    if err.Some? {
      return null, err;
    }
    err := CheckRemoteWithdraw(netFlow, assetPrecision, isLocal);
    if err.Some? {
      return null, err;
    }
    var remaining;
    remaining, err := UpdateTotalShares(totalShares, newShares, burn);
    if err.Some? {
      return null, err;
    }
    accounting.TotalShares := remaining;
  }

  /** Accepts exactly when the vault's own settlement would, with the same four values, and names the
      same reason when it refuses. */
  method CalculateEpochClose(epoch: Epoch<BigInt?>, totalShares: BigInt?, tvl: BigInt?, assetDecimals: uint8,
                             isLocal: bool)
    returns (accounting: Accounting?, err: Option<Rejection>)
    ensures accounting == null <==> err.Some?
    ensures !CloseInputsValid(epoch, totalShares, tvl, assetDecimals) ==> err == Some(InvalidInput)
    ensures CloseInputsValid(epoch, totalShares, tvl, assetDecimals) ==>
              && IsUint256(epoch.totalDepositAmount.value) && IsUint256(epoch.totalShareBurnAmount.value)
              && IsUint256(totalShares.value) && IsUint256(tvl.value) && IsUint256(Power(10, assetDecimals))
              && match Settle(epoch.totalDepositAmount.value, epoch.totalShareBurnAmount.value, totalShares.value,
                              tvl.value, Power(10, assetDecimals), isLocal)
                 case Err(e) => err == Some(e)
                 case Ok(s) => accounting != null && accounting.Holds(s)
    ensures accounting != null ==>
              && fresh(accounting) && fresh(accounting.TotalWithdraw) && accounting.NewShares != null
              && accounting.NetFlow != null && accounting.TotalShares != null
              && fresh(accounting.NewShares) && fresh(accounting.NetFlow) && fresh(accounting.TotalShares)
  {
    var deposit, burn := epoch.totalDepositAmount, epoch.totalShareBurnAmount;
    if !Uint256(deposit) || !Uint256(burn) || !Uint256(totalShares) || !Uint256(tvl) || assetDecimals > 77 {
      return null, Some(InvalidInput);
    }
    WidthIsInterval(deposit);
    WidthIsInterval(burn);
    WidthIsInterval(totalShares);
    WidthIsInterval(tvl);
    AssetPrecisionIsUint256(assetDecimals);
    if deposit.Sign() == 0 && burn.Sign() == 0 {
      return null, Some(EmptyEpoch);
    }
    var assetPrecision := new BigInt(Power(10, assetDecimals));
    var withdraw, newShares;
    withdraw, newShares, err := AllocateBig(deposit, burn, totalShares, tvl, assetPrecision);
    if err.Some? {
      return null, err;
    }
    accounting, err := SettleAllocatedBig(deposit, burn, totalShares, withdraw, newShares, assetPrecision, isLocal);
  }

  predicate ReconcileInputsValid(epoch: Epoch<BigInt?>, totalShares: BigInt?, actual: BigInt?)
    reads epoch.totalDepositAmount, epoch.totalWithdrawClaimAmount, epoch.remainingShareMintAmount, totalShares, actual
  {
    Uint256(epoch.totalDepositAmount) && Uint256(epoch.totalWithdrawClaimAmount)
    && Uint256(epoch.remainingShareMintAmount) && Uint256(totalShares) && Uint256(actual)
  }

  method AllUint256(values: seq<BigInt?>) returns (valid: bool)
    ensures valid <==> forall v :: v in values ==> Uint256(v)
  {
    for i := 0 to |values|
      invariant forall k :: 0 <= k < i ==> Uint256(values[k])
    {
      if !Uint256(values[i]) {
        return false;
      }
    }
    return true;
  }

  /** Scaling a mint by a ratio below one, in place. The quotient cannot leave uint256, so it needs no
      width check to agree with the vault's full-precision division. */
  method ScaleAllocationBig(deposit: BigInt, effective: BigInt, mint: BigInt, totalShares: BigInt)
    returns (adjusted: BigInt?, err: Option<Rejection>)
    requires IsUint256(mint.value) && IsUint256(effective.value) && IsUint256(deposit.value)
    requires IsUint256(totalShares.value)
    requires effective.value < deposit.value
    ensures adjusted == null <==> err.Some?
    ensures adjusted != null ==> fresh(adjusted)
    ensures ScaleAllocation(deposit.value, effective.value, mint.value, totalShares.value) ==
            if adjusted == null then Err(err.value) else Ok(adjusted.value)
  {
    adjusted := new BigInt(0);
    adjusted.Mul(mint, effective);
    adjusted.Quo(adjusted, deposit);
    ScaledMintFits(mint.value, effective.value, deposit.value);
    if adjusted.Sign() == 0 {
      return null, Some(DepositWouldMintZeroShares);
    }
    var reduction := new BigInt(0);
    reduction.Sub(mint, adjusted);
    if reduction.Cmp(totalShares) > 0 {
      return null, Some(TotalSharesUnderflow);
    }
    return adjusted, None;
  }

  /** The comparison of the delivery with the expected net deposit. */
  method ReconcileDelivery(deposit: BigInt, withdraw: BigInt, mint: BigInt, totalShares: BigInt, actualAmount: BigInt)
    returns (adjusted: BigInt?, err: Option<Rejection>)
    requires IsUint256(deposit.value) && IsUint256(withdraw.value) && IsUint256(mint.value)
    requires IsUint256(totalShares.value) && IsUint256(actualAmount.value)
    ensures adjusted == null <==> err.Some?
    ensures adjusted != null ==> fresh(adjusted)
    ensures Reconcile(deposit.value, withdraw.value, mint.value, totalShares.value, actualAmount.value) ==
            if adjusted == null then Err(err.value) else Ok(adjusted.value)
  {
    var expected := new BigInt(0);
    expected.Sub(deposit, withdraw);
    if expected.Sign() <= 0 {
      return null, Some(EpochNotNetDeposit);
    }
    if actualAmount.Sign() == 0 || actualAmount.Cmp(expected) > 0 {
      return null, Some(InvalidActualDepositAmount);
    }
    if actualAmount.Cmp(expected) == 0 {
      adjusted := new BigInt(0);
      adjusted.Set(mint);
      return adjusted, None;
    }
    var shortfall := new BigInt(0);
    shortfall.Sub(expected, actualAmount);
    var effectiveDeposit := new BigInt(0);
    effectiveDeposit.Sub(deposit, shortfall);
    adjusted, err := ScaleAllocationBig(deposit, effectiveDeposit, mint, totalShares);
  }

  /** Accepts exactly the deliveries the vault's completeEpochDeposit accounting accepts. */
  method ReconcileEpochDeposit(epoch: Epoch<BigInt?>, totalShares: BigInt?, actualAmount: BigInt?)
    returns (adjusted: BigInt?, err: Option<Rejection>)
    ensures adjusted == null <==> err.Some?
    ensures !ReconcileInputsValid(epoch, totalShares, actualAmount) ==> err == Some(InvalidInput)
    ensures ReconcileInputsValid(epoch, totalShares, actualAmount) ==>
              && IsUint256(epoch.totalDepositAmount.value) && IsUint256(epoch.totalWithdrawClaimAmount.value)
              && IsUint256(epoch.remainingShareMintAmount.value) && IsUint256(totalShares.value)
              && IsUint256(actualAmount.value)
              && match Reconcile(epoch.totalDepositAmount.value, epoch.totalWithdrawClaimAmount.value,
                                 epoch.remainingShareMintAmount.value, totalShares.value, actualAmount.value)
                 case Err(e) => err == Some(e)
                 case Ok(shares) => adjusted != null && adjusted.value == shares
    ensures adjusted != null ==> fresh(adjusted)
  {
    var deposit, withdraw, mint := epoch.totalDepositAmount, epoch.totalWithdrawClaimAmount, epoch.remainingShareMintAmount;
    var values := [deposit, withdraw, mint, totalShares, actualAmount];
    var valid := AllUint256(values);
    assert deposit in values && withdraw in values && mint in values && totalShares in values && actualAmount in values;
    if !valid {
      return null, Some(InvalidInput);
    }
    WidthIsInterval(deposit);
    WidthIsInterval(withdraw);
    WidthIsInterval(mint);
    WidthIsInterval(totalShares);
    WidthIsInterval(actualAmount);
    adjusted, err := ReconcileDelivery(deposit, withdraw, mint, totalShares, actualAmount);
  }

  lemma ScaledMintFits(mint: int, effective: int, deposit: int)
    requires 0 <= mint && 0 <= effective < deposit
    ensures 0 <= mint * effective / deposit <= mint
  {
    assert 0 <= mint * effective <= mint * deposit;
    QuotientIsMonotone(mint * effective, mint * deposit, deposit);
    QuotientOfMultiple(mint, deposit);
  }
}
