/** What pricing an epoch guarantees to the holders who stay, over one close, over a close followed by a
    short cross-chain delivery, and over whole runs of epochs. */
module SettlementTheorems {
  import opened Results
  import opened Words
  import opened Quotients
  import opened ParentVault

  // ----- one close -----

  lemma MulDivDownValue(x: uint256, y: uint256, d: uint256, q: uint256)
    requires MulDivDown(x, y, d) == Ok(q)
    ensures d > 0 && q == x * y / d && q * d <= x * y < q * d + d
  {
  }

  /** The full-precision division is exact: it gives the one quotient there is, refuses a zero denominator,
      and otherwise refuses exactly the quotients that leave uint256. */
  lemma MulDivDownIsExact(x: uint256, y: uint256, d: uint256, q: uint256)
    ensures MulDivDown(x, y, d) == Ok(q) <==> d != 0 && q * d <= x * y < q * d + d
    ensures MulDivDown(x, y, d) == Err(DivisionByZero) <==> d == 0
    ensures MulDivDown(x, y, d) == Err(MulDivOverflow) <==> d != 0 && x * y >= TWO_256 * d
  {
    if d != 0 {
      QuotientOfProduct(x, y, d);
      if q * d <= x * y < q * d + d {
        QuotientIsUnique(x * y, d, q);
      }
      QuotientOfMultiple(TWO_256, d);
      if x * y >= TWO_256 * d {
        QuotientIsMonotone(TWO_256 * d, x * y, d);
      } else {
        SmallQuotient(x * y, d, TWO_256);
      }
    }
  }

  lemma SmallQuotient(n: nat, d: nat, bound: nat)
    requires d > 0 && n < bound * d
    ensures n / d < bound
  {
    QuotientBounds(n, d);
    assert (bound - 1 - n / d) * d == bound * d - d - n / d * d;
    NonNegativeFactor(bound - 1 - n / d, d);
  }

  /** The facts of an accepted close that every other result starts from. */
  lemma SettleFacts(deposit: uint256, burn: uint256, supply: uint256, tvl: uint256, precision: uint256,
                    isLocal: bool, s: Settlement)
    requires Settle(deposit, burn, supply, tvl, precision, isLocal) == Ok(s)
    ensures deposit != 0 || burn != 0
    ensures s.netFlow == deposit - s.totalWithdraw && -TWO_255 < s.netFlow < TWO_255
    ensures s.totalShares == supply + s.newShares - burn
    ensures deposit != 0 ==> deposit <= s.newShares * precision < TWO_256
    ensures !isLocal && s.netFlow < 0 ==> -s.netFlow >= precision
    ensures supply != 0 ==> tvl != 0
    ensures supply != 0 ==> s.totalWithdraw * supply <= burn * tvl < s.totalWithdraw * supply + supply
    ensures supply != 0 ==> s.newShares * tvl <= deposit * supply < s.newShares * tvl + tvl
    ensures supply == 0 ==> burn == 0 && s.totalWithdraw == 0
    ensures supply == 0 ==> MulDivDown(deposit, SHARE_PRECISION, precision) == Ok(s.newShares)
  {
    var priced := Allocate(deposit, burn, supply, tvl, precision).value;
    assert s.totalWithdraw == priced.0 && s.newShares == priced.1;
    if supply != 0 {
      MulDivDownValue(burn, tvl, supply, priced.0);
      MulDivDownValue(deposit, supply, tvl, priced.1);
    }
  }

  /** The value lost to the two roundings of a close, in units of asset times share. */
  function Dust(deposit: nat, burn: nat, supply: nat, tvl: nat): int
    requires supply > 0 && tvl > 0
  {
    deposit * supply % tvl + burn * tvl % supply
  }

  lemma RemainderOf(n: int, d: int, q: int)
    requires d > 0 && q * d <= n < q * d + d
    ensures n % d == n - q * d
  {
    QuotientIsUnique(n, d, q);
  }

  /** The exact rounding account of a close: backing and supply after it, cross-multiplied with the price
      before it, differ by exactly the two remainders. */
  lemma CloseDust(deposit: uint256, burn: uint256, supply: uint256, tvl: uint256, precision: uint256,
                  isLocal: bool, s: Settlement)
    requires Settle(deposit, burn, supply, tvl, precision, isLocal) == Ok(s) && supply != 0
    ensures tvl != 0
    ensures (tvl + s.netFlow) * supply == tvl * s.totalShares + Dust(deposit, burn, supply, tvl)
    ensures 0 <= Dust(deposit, burn, supply, tvl) <= tvl + supply - 2
  {
    SettleFacts(deposit, burn, supply, tvl, precision, isLocal, s);
    RemainderOf(deposit * supply, tvl, s.newShares);
    RemainderOf(burn * tvl, supply, s.totalWithdraw);
    Distribute(supply, tvl, deposit, s.totalWithdraw);
    Distribute(tvl, supply, s.newShares, burn);
  }

  /** No holder who stays is diluted, and the vault never owes more than it holds, although nothing
      bounds the burn by the supply before the close. */
  lemma CloseIsFairAndSolvent(deposit: uint256, burn: uint256, supply: uint256, tvl: uint256, precision: uint256,
                              isLocal: bool, s: Settlement)
    requires Settle(deposit, burn, supply, tvl, precision, isLocal) == Ok(s) && supply != 0
    ensures (tvl + s.netFlow) * supply >= tvl * s.totalShares
    ensures s.totalWithdraw <= tvl + deposit
  {
    CloseDust(deposit, burn, supply, tvl, precision, isLocal, s);
    SettleFacts(deposit, burn, supply, tvl, precision, isLocal, s);
    assert tvl * s.totalShares >= 0;
    NonNegativeFactor(tvl + s.netFlow, supply);
  }

  /** A burn larger than the supply is accepted when the same epoch mints enough. */
  lemma BurnMayExceedSupply()
    ensures Settle(3_000_000, 2_000_000, 1_000_000, 1_000_000, 1_000_000, true)
            == Ok(Settlement(2_000_000, 3_000_000, 1_000_000, 2_000_000))
  {
  }

  // ----- the minimum deposit -----

  lemma SmallestPartGetsAShare(shares: nat, precision: nat, deposit: nat, part: nat)
    requires deposit > 0 && deposit <= shares * precision && precision <= part
    ensures shares * part / deposit >= 1
  {
    ScaleInequality(part, precision, shares);
    QuotientIsPositive(shares * part, deposit);
  }

  /** An accepted deposit gives every part of at least one asset unit a share; an epoch whose only fault is
      the minimum check is one where a part of exactly one unit would get none. */
  lemma MinimumDepositMeansAShare(deposit: uint256, burn: uint256, supply: uint256, tvl: uint256, precision: uint256,
                                  isLocal: bool)
    requires deposit != 0 && precision != 0
    ensures Settle(deposit, burn, supply, tvl, precision, isLocal).Ok? ==>
              forall part: nat {:trigger Settle(deposit, burn, supply, tvl, precision, isLocal).value.newShares * part}
                :: part >= precision ==>
                   Settle(deposit, burn, supply, tvl, precision, isLocal).value.newShares * part / deposit >= 1
    ensures Settle(deposit, burn, supply, tvl, precision, isLocal) == Err(DepositWouldMintZeroShares) ==>
              && Allocate(deposit, burn, supply, tvl, precision).Ok?
              && Allocate(deposit, burn, supply, tvl, precision).value.1 * precision / deposit == 0
  {
    var settled := Settle(deposit, burn, supply, tvl, precision, isLocal);
    if settled.Ok? {
      SettleFacts(deposit, burn, supply, tvl, precision, isLocal, settled.value);
      forall part: nat | part >= precision
        ensures settled.value.newShares * part / deposit >= 1
      {
        SmallestPartGetsAShare(settled.value.newShares, precision, deposit, part);
      }
    } else if settled == Err(DepositWouldMintZeroShares) {
      MintedByAllocation(deposit, burn, supply, tvl, precision);
      var shares := Allocate(deposit, burn, supply, tvl, precision).value.1;
      assert shares * precision < deposit;
      assert shares * precision >= 0;
      QuotientBounds(shares * precision, deposit);
      QuotientIsPositive(shares * precision, deposit);
    }
  }

  lemma MintedByAllocation(deposit: uint256, burn: uint256, supply: uint256, tvl: uint256, precision: uint256)
    ensures Allocate(deposit, burn, supply, tvl, precision).Err? ==>
              Allocate(deposit, burn, supply, tvl, precision).error != DepositWouldMintZeroShares
  {
  }

  /** When the bootstrap branch fails the minimum check, in terms of the quotient alone. */
  lemma BootstrapRejects(deposit: uint256, tvl: uint256, precision: uint256, isLocal: bool)
    requires deposit != 0 && precision != 0
    ensures Settle(deposit, 0, 0, tvl, precision, isLocal) == Err(DepositWouldMintZeroShares) <==>
              var minted := deposit * SHARE_PRECISION / precision;
              minted < TWO_256 && deposit < TWO_255 && minted * precision < deposit
  {
    QuotientBounds(deposit * SHARE_PRECISION, precision);
    MintedByAllocation(deposit, 0, 0, tvl, precision);
    var priced := MulDivDown(deposit, SHARE_PRECISION, precision);
    if priced.Ok? {
      assert Settle(deposit, 0, 0, tvl, precision, isLocal)
             == SettleAllocated(deposit, 0, 0, 0, priced.value, precision, isLocal);
    }
  }

  /** While no share exists, the check for a worthless minimum deposit can fail only for assets of more
      than eighteen decimals, and then exactly for a deposit below one share unit. */
  lemma BootstrapMinimum(deposit: uint256, tvl: uint256, decimals: uint8, isLocal: bool)
    requires deposit != 0 && decimals <= 77
    ensures IsUint256(Power(10, decimals))
    ensures Settle(deposit, 0, 0, tvl, Power(10, decimals), isLocal) == Err(DepositWouldMintZeroShares) <==>
              decimals > 18 && deposit < TWO_255 && deposit < Power(10, decimals - 18)
  {
    AssetPrecisionIsUint256(decimals);
    BootstrapRejects(deposit, tvl, Power(10, decimals), isLocal);
    assert Power(10, 9) == 1_000_000_000;
    PowerAdds(10, 9, 9);
    if decimals <= 18 {
      PowerAdds(10, decimals, 18 - decimals);
      PowerOfTenGrows(18 - decimals, 18);
      BootstrapFine(deposit, Power(10, decimals), Power(10, 18 - decimals));
    } else {
      PowerAdds(10, 18, decimals - 18);
      PowerOfTenGrows(0, decimals - 18);
      BootstrapCoarse(deposit, SHARE_PRECISION, Power(10, decimals - 18));
    }
  }

  /** With a precision that divides the share precision, nothing is rounded away. */
  lemma BootstrapFine(deposit: nat, precision: nat, step: nat)
    requires precision >= 1 && step >= 1
    ensures deposit * (precision * step) / precision * precision >= deposit
  {
    assert deposit * (precision * step) == deposit * step * precision;
    QuotientOfMultiple(deposit * step, precision);
    ScaleInequality(precision * step, 1, deposit);
  }

  /** With a precision of `step` times `unit`, the mint is deposit / unit. */
  lemma BootstrapCoarse(deposit: nat, step: nat, unit: nat)
    requires step >= 2 && unit >= 1
    ensures deposit * step / (step * unit) == deposit / unit
    ensures deposit / unit <= deposit
    ensures deposit > 0 ==> (deposit / unit * (step * unit) < deposit <==> deposit < unit)
  {
    QuotientBounds(deposit, unit);
    var q := deposit / unit;
    var r := deposit - q * unit;
    assert q * (step * unit) == q * unit * step;
    assert deposit * step == q * unit * step + r * step;
    ScaleInequality(unit - 1, r, step);
    assert step * unit > 0;
    assert (unit - 1) * step == step * unit - step;
    QuotientIsUnique(deposit * step, step * unit, q);
    ScaleInequality(unit, 1, q);
    QuotientIsPositive(deposit, unit);
    if q >= 1 {
      ScaleInequality(step, 2, q * unit);
      assert q * unit * step >= 2 * (q * unit);
      ScaleInequality(q, 1, unit);
    }
  }

  // ----- reconciliation -----

  /** Exactly which deliveries are accepted, and what allocation each leaves. */
  lemma ReconcileAccepts(deposit: uint256, withdraw: uint256, mint: uint256, supply: uint256, actual: uint256)
    ensures Reconcile(deposit, withdraw, mint, supply, actual).Ok? <==>
              && 0 < actual <= deposit - withdraw
              && (actual < deposit - withdraw ==>
                    && mint * (withdraw + actual) >= deposit
                    && mint - mint * (withdraw + actual) / deposit <= supply)
    ensures Reconcile(deposit, withdraw, mint, supply, actual).Ok? ==>
              var adjusted := Reconcile(deposit, withdraw, mint, supply, actual).value;
              && adjusted == mint * (withdraw + actual) / deposit
              && adjusted * deposit <= mint * (withdraw + actual) < adjusted * deposit + deposit
              && adjusted <= mint
              && (actual < deposit - withdraw ==> adjusted > 0 && mint - adjusted <= supply)
  {
    if 0 < actual <= deposit - withdraw {
      var effective := withdraw + actual;
      QuotientBounds(mint * effective, deposit);
      QuotientOfMultiple(mint, deposit);
      if actual < deposit - withdraw {
        assert deposit - (deposit - withdraw - actual) == effective;
        ScaleInequality(deposit, effective, mint);
        QuotientIsMonotone(mint * effective, mint * deposit, deposit);
        QuotientIsPositive(mint * effective, deposit);
        assert MulDivDown(mint, effective, deposit) == Ok(mint * effective / deposit);
      } else {
        assert mint * effective == mint * deposit;
      }
    }
  }

  /** Delivering more never hurts: the allocation grows with the delivery, acceptance is upward closed,
      and full delivery leaves the whole allocation. */
  lemma ReconcileIsMonotone(deposit: uint256, withdraw: uint256, mint: uint256, supply: uint256,
                            actual: uint256, more: uint256)
    requires Reconcile(deposit, withdraw, mint, supply, actual).Ok?
    requires actual <= more <= deposit - withdraw
    ensures Reconcile(deposit, withdraw, mint, supply, more).Ok?
    ensures Reconcile(deposit, withdraw, mint, supply, actual).value
            <= Reconcile(deposit, withdraw, mint, supply, more).value <= mint
    ensures more == deposit - withdraw ==> Reconcile(deposit, withdraw, mint, supply, more) == Ok(mint)
  {
    ReconcileAccepts(deposit, withdraw, mint, supply, actual);
    ReconcileAccepts(deposit, withdraw, mint, supply, more);
    ScaleInequality(withdraw + more, withdraw + actual, mint);
    QuotientIsMonotone(mint * (withdraw + actual), mint * (withdraw + more), deposit);
  }

  lemma DepositsPriced(deposit: nat, supply: nat, tvl: nat, mint: nat, effective: nat)
    requires deposit * supply < mint * tvl + tvl
    ensures (supply * effective) * deposit <= mint * effective * tvl + tvl * effective
  {
    ScaleInequality(mint * tvl + tvl, deposit * supply, effective);
    assert (mint * tvl + tvl) * effective == mint * effective * tvl + tvl * effective;
    assert deposit * supply * effective == (supply * effective) * deposit;
  }

  lemma MintPriced(deposit: nat, tvl: nat, mint: nat, effective: nat, scaled: nat)
    requires mint * effective < scaled * deposit + deposit
    ensures mint * effective * tvl <= (scaled * tvl + tvl) * deposit
  {
    ScaleInequality(scaled * deposit + deposit, mint * effective, tvl);
    assert (scaled * deposit + deposit) * tvl == (scaled * tvl + tvl) * deposit;
  }

  /** The deposits that are left are worth at most two shares more than the scaled mint. */
  lemma ScaledMintWorth(deposit: nat, supply: nat, tvl: nat, mint: nat, effective: nat, scaled: nat)
    requires tvl > 0 && 0 < effective < deposit
    requires deposit * supply < mint * tvl + tvl
    requires mint * effective < scaled * deposit + deposit
    ensures supply * effective <= scaled * tvl + tvl + tvl
  {
    DepositsPriced(deposit, supply, tvl, mint, effective);
    MintPriced(deposit, tvl, mint, effective, scaled);
    ScaleInequality(deposit, effective, tvl);
    AddFactor(scaled * tvl + tvl, tvl, deposit);
    CancelFactor(scaled * tvl + tvl + tvl, supply * effective, deposit);
  }

  lemma AddFactor(a: int, b: int, d: int)
    ensures (a + b) * d == a * d + b * d
  {
  }

  /** Two roundings apart, the shares burned are no more than the shares that the deposits kept for them
      are worth, so a short delivery always leaves as many shares as were burned, but for one. */
  lemma ScaledMintCoversBurn(deposit: nat, burn: nat, supply: nat, tvl: nat, withdraw: nat, mint: nat,
                             effective: nat, scaled: nat)
    requires tvl > 0 && withdraw < effective < deposit
    requires burn * tvl < withdraw * supply + supply
    requires deposit * supply < mint * tvl + tvl
    requires mint * effective < scaled * deposit + deposit
    ensures burn <= scaled + 1
  {
    ScaledMintWorth(deposit, supply, tvl, mint, effective, scaled);
    ScaleInequality(effective, withdraw + 1, supply);
    assert (withdraw + 1) * supply == withdraw * supply + supply;
    assert effective * supply == supply * effective;
    assert (scaled + 1 - burn) * tvl == scaled * tvl + tvl - burn * tvl;
    NonNegativeFactor(scaled + 1 - burn, tvl);
  }

  /** After a close, a short delivery is never refused for the share supply, although no burn is bounded by
      it: it is accepted exactly when the scaled allocation is not zero. */
  lemma ShortDeliveryAfterClose(deposit: uint256, burn: uint256, supply: uint256, tvl: uint256, precision: uint256,
                                isLocal: bool, s: Settlement, actual: uint256)
    requires 0 < actual < s.netFlow
    ensures Settle(deposit, burn, supply, tvl, precision, isLocal) == Ok(s) ==>
              var allocation := s.newShares * (s.totalWithdraw + actual);
              Reconcile(deposit, s.totalWithdraw, s.newShares, s.totalShares, actual)
              == if allocation >= deposit then Ok(allocation / deposit) else Err(DepositWouldMintZeroShares)
  {
    if Settle(deposit, burn, supply, tvl, precision, isLocal) == Ok(s) {
      SettleFacts(deposit, burn, supply, tvl, precision, isLocal, s);
      ScaleAfterClose(deposit, burn, supply, tvl, s, s.totalWithdraw + actual);
      assert deposit - (deposit - s.totalWithdraw - actual) == s.totalWithdraw + actual;
    }
  }

  /** Scaling the allocation of a settled epoch. */
  lemma ScaleAfterClose(deposit: uint256, burn: uint256, supply: uint256, tvl: uint256, s: Settlement, effective: uint256)
    requires s.totalWithdraw < effective < deposit && s.totalShares == supply + s.newShares - burn
    requires supply != 0 ==> tvl != 0
    requires supply != 0 ==> burn * tvl < s.totalWithdraw * supply + supply
    requires supply != 0 ==> deposit * supply < s.newShares * tvl + tvl
    requires supply == 0 ==> burn == 0
    ensures ScaleAllocation(deposit, effective, s.newShares, s.totalShares)
            == if s.newShares * effective >= deposit then Ok(s.newShares * effective / deposit)
               else Err(DepositWouldMintZeroShares)
  {
    var mint := s.newShares;
    var scaled := mint * effective / deposit;
    QuotientOfProduct(mint, effective, deposit);
    QuotientIsPositive(mint * effective, deposit);
    ScaleInequality(deposit, effective, mint);
    QuotientIsMonotone(mint * effective, mint * deposit, deposit);
    QuotientOfMultiple(mint, deposit);
    if supply != 0 {
      ScaledMintCoversBurn(deposit, burn, supply, tvl, s.totalWithdraw, mint, effective, scaled);
    }
    assert MulDivDown(mint, effective, deposit) == Ok(scaled);
  }

  /** The close-time minimum check also protects the reconciliation: with one whole asset unit left in the
      epoch, every short delivery is accepted. */
  lemma OneUnitSurvivesReconciliation(deposit: uint256, burn: uint256, supply: uint256, tvl: uint256,
                                      precision: uint256, isLocal: bool, s: Settlement, actual: uint256)
    requires 0 < actual < s.netFlow && s.totalWithdraw + actual >= precision
    ensures Settle(deposit, burn, supply, tvl, precision, isLocal) == Ok(s) ==>
              && s.newShares * (s.totalWithdraw + actual) >= deposit
              && Reconcile(deposit, s.totalWithdraw, s.newShares, s.totalShares, actual).Ok?
  {
    if Settle(deposit, burn, supply, tvl, precision, isLocal) == Ok(s) {
      SettleFacts(deposit, burn, supply, tvl, precision, isLocal, s);
      ShortDeliveryAfterClose(deposit, burn, supply, tvl, precision, isLocal, s, actual);
      ScaleInequality(s.totalWithdraw + actual, precision, s.newShares);
    }
  }

  /** Below one unit it can be refused: a share worth a whole unit leaves nothing to allocate to a delivery
      of less than a unit. */
  lemma DustDeliveryIsRefused()
    ensures Settle(3_000_000, 0, 1_000_000, 1_000_000_000_000, 1_000_000, false)
            == Ok(Settlement(0, 3, 3_000_000, 1_000_003))
    ensures Reconcile(3_000_000, 0, 3, 1_000_003, 999_999) == Err(DepositWouldMintZeroShares)
  {
  }

  // ----- a close and its delivery -----

  /** One settled epoch: what it started from, how it was settled, and what finally reached the strategy
      (a negative delivery is what left it) against the shares finally minted. */
  datatype SettledEpoch = SettledEpoch(
    deposit: uint256, burn: uint256, supply: uint256, tvl: uint256, isLocal: bool,
    settlement: Settlement, delivered: int, minted: uint256)
  {
    /** Settled by the rule, and either delivered as settled or accepted by reconciliation. */
    predicate Valid(precision: uint256) {
      && Settle(deposit, burn, supply, tvl, precision, isLocal) == Ok(settlement)
      && ((delivered == settlement.netFlow && minted == settlement.newShares)
          || (0 < delivered <= settlement.netFlow
              && Reconcile(deposit, settlement.totalWithdraw, settlement.newShares, settlement.totalShares, delivered)
                 == Ok(minted)))
    }

    function SupplyAfter(): int {
      supply + minted - burn
    }

    function BackingAfter(): int {
      tvl + delivered
    }
  }

  /** A short delivery costs only the depositors it belongs to: the holders' price does not fall, and the
      share supply stays nonnegative. */
  lemma DeliveryIsFair(o: SettledEpoch, precision: uint256)
    requires o.Valid(precision) && o.supply != 0
    ensures o.BackingAfter() * o.supply >= o.tvl * o.SupplyAfter()
    ensures o.SupplyAfter() >= 0 && o.BackingAfter() >= 0
  {
    var s := o.settlement;
    SettleFacts(o.deposit, o.burn, o.supply, o.tvl, precision, o.isLocal, s);
    CloseIsFairAndSolvent(o.deposit, o.burn, o.supply, o.tvl, precision, o.isLocal, s);
    if o.delivered == s.netFlow && o.minted == s.newShares {
      assert o.SupplyAfter() == s.totalShares;
    } else {
      ReconcileAccepts(o.deposit, s.totalWithdraw, s.newShares, s.totalShares, o.delivered);
      ShortMintBound(o.deposit, o.supply, o.tvl, s.newShares, s.totalWithdraw + o.delivered, o.minted);
      Distribute(o.supply, o.tvl, s.totalWithdraw + o.delivered, s.totalWithdraw);
      Distribute(o.tvl, o.supply, o.minted, o.burn);
    }
  }

  /** The scaled mint, priced at the close, is covered by the deposits that arrived. */
  lemma ShortMintBound(deposit: int, supply: int, tvl: int, mint: int, effective: int, adjusted: int)
    requires 0 < effective <= deposit && tvl > 0 && supply >= 0 && mint >= 0 && adjusted >= 0
    requires mint * tvl <= deposit * supply
    requires adjusted * deposit <= mint * effective
    ensures adjusted * tvl <= effective * supply
  {
    ScaleInequality(mint * effective, adjusted * deposit, tvl);
    ScaleInequality(deposit * supply, mint * tvl, effective);
    assert adjusted * deposit * tvl == (adjusted * tvl) * deposit;
    assert mint * effective * tvl == mint * tvl * effective;
    assert deposit * supply * effective == (effective * supply) * deposit;
    CancelFactor(effective * supply, adjusted * tvl, deposit);
  }

  // ----- whole runs -----

  /** From epoch `i` to epoch `j` shares stay outstanding, each epoch hands its share supply on to the
      next, and the strategy loses nothing in between. */
  ghost predicate Lossless(run: seq<SettledEpoch>, precision: uint256, i: nat, j: nat)
    requires i <= j < |run|
  {
    && (forall k :: i <= k <= j ==> run[k].Valid(precision) && run[k].supply != 0)
    && (forall k :: i <= k < j ==>
          run[k + 1].supply == run[k].SupplyAfter() && run[k + 1].tvl >= run[k].BackingAfter())
  }

  /** Over any run of epochs that keep shares outstanding, the price per share never falls from one close
      to any later one, whatever was burned, minted or lost in delivery. */
  lemma {:induction false} PriceNeverFalls(run: seq<SettledEpoch>, precision: uint256, i: nat, j: nat)
    requires i <= j < |run| && Lossless(run, precision, i, j)
    ensures run[j].tvl * run[i].supply >= run[i].tvl * run[j].supply
    decreases j
  {
    if i < j {
      PriceNeverFalls(run, precision, i, j - 1);
      PriceStep(run[i], run[j - 1], run[j], precision);
    }
  }

  lemma PriceStep(a: SettledEpoch, b: SettledEpoch, c: SettledEpoch, precision: uint256)
    requires a.supply != 0 && b.Valid(precision) && b.supply != 0 && c.supply != 0
    requires b.tvl * a.supply >= a.tvl * b.supply
    requires c.supply == b.SupplyAfter() && c.tvl >= b.BackingAfter()
    ensures c.tvl * a.supply >= a.tvl * c.supply
  {
    DeliveryIsFair(b, precision);
    ScaleInequality(c.tvl, b.BackingAfter(), b.supply);
    ChainPrices(a.tvl, a.supply, b.tvl, b.supply, c.tvl, c.supply);
  }

  lemma ChainPrices(t0: int, s0: int, t1: int, s1: int, t2: int, s2: int)
    requires s0 > 0 && s1 > 0 && s2 > 0
    requires t1 * s0 >= t0 * s1 && t2 * s1 >= t1 * s2
    ensures t2 * s0 >= t0 * s2
  {
    ScaleInequality(t2 * s1, t1 * s2, s0);
    ScaleInequality(t1 * s0, t0 * s1, s2);
    assert t2 * s1 * s0 == t2 * s0 * s1;
    assert t1 * s2 * s0 == t1 * s0 * s2;
    assert t0 * s1 * s2 == t0 * s2 * s1;
    CancelFactor(t2 * s0, t0 * s2, s1);
  }
}
