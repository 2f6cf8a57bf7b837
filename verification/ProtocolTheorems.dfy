/** Safety over whole runs, whatever is delayed, repeated, reordered or lost in them. */
module ProtocolTheorems {
  import opened Results
  import opened Words
  import opened Bindings
  import opened Config
  import opened Snapshot
  import opened Handlers
  import opened Preflight
  import opened SettlementTheorems
  import opened Protocol
  import opened ProtocolSafety
  import V = ParentVault

  // ----- each nonce is acted on at most once -----

  /** Across all children an epoch is withdrawn for at most once, on the chain whose strategy was active at
      its close, for exactly what the close left owing, which is at least one whole asset unit. */
  lemma OneWithdrawalPerEpoch(env: Env, worlds: seq<World>, steps: seq<Step>, t: nat, i: nat, j: nat)
    requires IsRun(env, worlds, steps) && t < |worlds|
    requires i < |worlds[t].withdrawals| && j < |worlds[t].withdrawals|
    ensures WithdrawalOk(worlds[t].facts, worlds[t].withdrawals[i]) && worlds[t].withdrawals[i].amount >= env.Precision()
    ensures worlds[t].withdrawals[i].nonce == worlds[t].withdrawals[j].nonce ==> i == j
  {
    RunKeeps(env, worlds, steps, t);
    var w := worlds[t];
    OneWithdrawalEach(w.facts, w.withdrawals, w.handledEpochs, i, j);
    WithdrawalIsWhole(env.Precision(), w.parent, w.facts, w.fees, w.withdrawals[i]);
  }

  lemma OneWithdrawalEach(f: Facts, xs: seq<Withdrawal>, nonces: map<uint64, uint256>, i: nat, j: nat)
    requires WithdrawalsOk(f, xs, nonces) && i < |xs| && j < |xs|
    ensures WithdrawalOk(f, xs[i]) && (xs[i].nonce == xs[j].nonce ==> i == j)
  {
    assert WithdrawalOk(f, xs[i]) && WithdrawalOk(f, xs[j]);
  }

  lemma WithdrawalIsWhole(precision: uint256, p: V.State, f: Facts, fees: nat, x: Withdrawal)
    requires LedgerOk(precision, p, f.ledger, fees) && WithdrawalOk(f, x)
    ensures x.amount >= precision
  {
    var c := f.ledger[x.nonce - 1].epoch;
    SettleFacts(c.deposit, c.burn, c.supply, c.tvl, precision, c.isLocal, c.settlement);
  }

  /** Across all children a rebalance is executed at most once, by the child whose strategy was active under
      its nonce, towards the strategy initiated under that nonce. */
  lemma OneMovePerRebalance(env: Env, worlds: seq<World>, steps: seq<Step>, t: nat, i: nat, j: nat)
    requires IsRun(env, worlds, steps) && t < |worlds|
    requires i < |worlds[t].moves| && j < |worlds[t].moves|
    ensures MoveOk(worlds[t].facts, worlds[t].moves[i])
    ensures worlds[t].moves[i].nonce == worlds[t].moves[j].nonce ==> i == j
  {
    RunKeeps(env, worlds, steps, t);
    var w := worlds[t];
    assert MoveOk(w.facts, w.moves[i]) && MoveOk(w.facts, w.moves[j]);
  }

  // ----- each report takes effect at most once -----

  /** The parent's or the child's counter has passed this call. */
  predicate Spent(w: World, r: Report) {
    var closes := |w.facts.ledger|;
    match r.call
    case CloseEpoch(nonce, _) => nonce <= closes
    case CompleteEpochDeposit(nonce, _) => nonce < closes || (nonce == closes && !Flying(w.parent))
    case InitiateRebalance(nonce, _) => nonce in w.facts.initiations || nonce < w.parent.rebalance.nonce
    case CompleteRebalance(nonce) => nonce < w.parent.rebalance.nonce
    case ExecuteEpochWithdraw(nonce, _) => nonce <= Handled(w.handledEpochs, r.target.chainSelector)
    case ExecuteRebalance(nonce, _) => nonce <= Handled(w.handledRebalances, r.target.chainSelector)
  }

  /** The same call, by kind, nonce and vault, whatever else it says. */
  predicate SameCall(a: Report, b: Report) {
    match (a.call, b.call)
    case (CloseEpoch(m, _), CloseEpoch(n, _)) => m == n
    case (CompleteEpochDeposit(m, _), CompleteEpochDeposit(n, _)) => m == n
    case (InitiateRebalance(m, _), InitiateRebalance(n, _)) => m == n
    case (CompleteRebalance(m), CompleteRebalance(n)) => m == n
    case (ExecuteEpochWithdraw(m, _), ExecuteEpochWithdraw(n, _)) => m == n && a.target.chainSelector == b.target.chainSelector
    case (ExecuteRebalance(m, _), ExecuteRebalance(n, _)) => m == n && a.target.chainSelector == b.target.chainSelector
    case _ => false
  }

  /** What no step takes back. */
  predicate Advances(w: World, w': World) {
    && Extends(w.facts, w'.facts)
    && (|w'.facts.ledger| == |w.facts.ledger| && Flying(w'.parent) ==> Flying(w.parent))
    && w.parent.rebalance.nonce <= w'.parent.rebalance.nonce
    && (forall c :: Handled(w.handledEpochs, c) <= Handled(w'.handledEpochs, c))
    && (forall c :: Handled(w.handledRebalances, c) <= Handled(w'.handledRebalances, c))
  }

  lemma SpentStaysSpent(w: World, w': World, r: Report)
    requires Advances(w, w') && Spent(w, r)
    ensures Spent(w', r)
  {
  }

  lemma CloseSpends(env: Env, w: World, nonce: uint256, tvl: uint256, adapterOut: uint256, now: uint256)
    requires Inv(env, w)
    ensures var w' := AfterClose(env, w, nonce, tvl, adapterOut, now);
            w' == w || (nonce == |w.facts.ledger| + 1 == |w'.facts.ledger| && Advances(w, w'))
  {
    var isLocal := w.parent.rebalance.activeStrategy.chainSelector == env.ParentChain();
    var closed := V.CloseEpoch(w.parent, nonce, tvl, env.Precision(), isLocal, adapterOut, now);
    if closed.Ok? {
      CloseFacts(w.parent, nonce, tvl, env.Precision(), isLocal, adapterOut, now, closed.value.0, closed.value.1);
    }
  }

  lemma DeliverySpends(env: Env, w: World, nonce: uint256, actual: uint256)
    requires Inv(env, w)
    ensures var w' := AfterDelivery(w, nonce, actual);
            w' == w || (nonce == |w.facts.ledger| == |w'.facts.ledger| && Flying(w.parent) && !Flying(w'.parent)
                        && Advances(w, w'))
  {
    var completed := V.CompleteEpochDeposit(w.parent, nonce, actual);
    if completed.Ok? {
      DeliveryFacts(w.parent, nonce, actual, completed.value.0, completed.value.1);
      ReconcileExtends(w.facts, actual, completed.value.1);
    }
  }

  lemma FinalizeAdvances(env: Env, w: World, newStrategy: Strategy, now: uint256)
    requires Inv(env, w)
    ensures var r := V.FinalizeRebalance(w.parent, w.parent.rebalance.nonce, newStrategy, false, now);
            r.Ok? ==> var w' := AfterFinalize(w, r.value.0, r.value.1);
                      w'.parent.rebalance.nonce == w.parent.rebalance.nonce + 1 && Advances(w, w')
  {
    var r := V.FinalizeRebalance(w.parent, w.parent.rebalance.nonce, newStrategy, false, now);
    if r.Ok? {
      FinalizeFacts(w.parent, w.parent.rebalance.nonce, newStrategy, false, now, r.value.0, r.value.1);
    }
  }

  lemma InitiationSpends(env: Env, w: World, nonce: uint256, target: Strategy, isSupported: bool, now: uint256)
    requires Inv(env, w)
    ensures var w' := AfterInitiate(env, w, nonce, target, isSupported, now);
            w' == w || (nonce == w.parent.rebalance.nonce && nonce !in w.facts.initiations && nonce in w'.facts.initiations
                        && Advances(w, w'))
  {
    var initiated := V.InitiateRebalance(w.parent, nonce, target, env.ParentChain(), isSupported, now);
    if initiated.Ok? {
      InitiateFacts(w.parent, nonce, target, env.ParentChain(), isSupported, now, initiated.value.0, initiated.value.1);
      InitiateAddsFacts(w.parent, w.facts, target, initiated.value.0);
    }
  }

  lemma CompletionSpends(env: Env, w: World, nonce: uint256, now: uint256)
    requires Inv(env, w)
    ensures var w' := AfterComplete(env, w, nonce, now);
            w' == w || (nonce == w.parent.rebalance.nonce < w'.parent.rebalance.nonce && Advances(w, w'))
  {
    FinalizeAdvances(env, w, w.parent.rebalance.pendingStrategy, now);
  }

  /** A spent call changes nothing, and a delivery that changes anything spends every report of the same call. */
  lemma EffectSpends(env: Env, w: World, r: Report, adapterOut: uint256, isSupported: bool, now: uint256, s: Report)
    requires Inv(env, w) && SameCall(r, s)
    ensures var w' := Deliver(env, w, r, adapterOut, isSupported, now);
            w' == w || (!Spent(w, r) && Spent(w', s) && Advances(w, w'))
  {
    match r.call
    case CloseEpoch(nonce, tvl) => CloseSpends(env, w, nonce, tvl, adapterOut, now);
    case CompleteEpochDeposit(nonce, actual) => DeliverySpends(env, w, nonce, actual);
    case InitiateRebalance(nonce, target) => InitiationSpends(env, w, nonce, target, isSupported, now);
    case CompleteRebalance(nonce) => CompletionSpends(env, w, nonce, now);
    case _ =>
  }

  lemma UserAdvances(w: World, nonce: uint256, epoch: Epoch<uint256>)
    requires epoch.status == w.parent.EpochAt(nonce).status
    ensures Advances(w, w.Moved(w.parent.WithEpoch(nonce, epoch)))
  {
  }

  lemma ReceiptAdvances(w: World, nonce: uint256, received: uint256)
    requires ParentOk(w.parent)
    ensures var r := V.ReceiveNetWithdraw(w.parent, nonce, received);
            r.Ok? ==> Advances(w, w.Moved(r.value))
  {
    var r := V.ReceiveNetWithdraw(w.parent, nonce, received);
    if r.Ok? {
      ReceiptFacts(w.parent, nonce, received, r.value);
    }
  }

  lemma OffchainAdvances(w: World, outcome: Outcome, chain: uint64, epochNonce: uint256, rebalanceNonce: uint256)
    requires epochNonce >= Handled(w.handledEpochs, chain) && rebalanceNonce >= Handled(w.handledRebalances, chain)
    ensures Advances(w, AfterExecution(w, outcome))
    ensures Advances(w, w.(handledEpochs := w.handledEpochs[chain := epochNonce],
                           handledRebalances := w.handledRebalances[chain := rebalanceNonce]))
  {
  }

  /** Every step advances. */
  lemma StepAdvances(env: Env, w: World, step: Step)
    requires env.Valid() && Inv(env, w) && Enabled(env, w, step)
    ensures Advances(w, Next(env, w, step))
  {
    match step
    case UserActivity(deposit, burn) =>
      UserAdvances(w, w.parent.epochNonce,
                   w.parent.CurrentEpoch().(totalDepositAmount := deposit, totalShareBurnAmount := burn));
    case Claim(nonce, claimed) => UserAdvances(w, nonce, claimed);
    case Delivery(r, adapterOut, isSupported, now) => EffectSpends(env, w, r, adapterOut, isSupported, now, r);
    case WithdrawalArrives(nonce, received) => ReceiptAdvances(w, nonce, received);
    case RebalanceArrives(newStrategy, now) => FinalizeAdvances(env, w, newStrategy, now);
    case Execution(_, snapshot, trigger) =>
      OffchainAdvances(w, Execute(env.text, env.keccak, env.cfg, snapshot, trigger), 0, TWO_256 - 1, TWO_256 - 1);
    case ChildProgress(chain, epochNonce, rebalanceNonce) =>
      OffchainAdvances(w, NoOp(Blocked), chain, epochNonce, rebalanceNonce);
  }

  lemma RunAdvances(env: Env, worlds: seq<World>, steps: seq<Step>, i: nat)
    requires IsRun(env, worlds, steps) && i < |steps|
    ensures Inv(env, worlds[i]) && Advances(worlds[i], worlds[i + 1])
  {
    RunKeeps(env, worlds, steps, i);
    StepAdvances(env, worlds[i], steps[i]);
  }

  lemma {:induction false} SpentForever(worlds: seq<World>, i: nat, j: nat, r: Report)
    requires i <= j < |worlds| && Spent(worlds[i], r)
    requires forall k :: i <= k < j ==> Advances(worlds[k], worlds[k + 1])
    ensures Spent(worlds[j], r)
    decreases j
  {
    if i < j {
      SpentForever(worlds, i, j - 1, r);
      assert Advances(worlds[j - 1], worlds[j - 1 + 1]);
      SpentStaysSpent(worlds[j - 1], worlds[j], r);
    }
  }

  lemma DeliveryEffect(env: Env, worlds: seq<World>, steps: seq<Step>, i: nat, s: Report)
    requires IsRun(env, worlds, steps) && i < |steps| && steps[i].Delivery? && SameCall(steps[i].report, s)
    ensures worlds[i + 1] == worlds[i] || (!Spent(worlds[i], steps[i].report) && Spent(worlds[i + 1], s))
  {
    RunKeeps(env, worlds, steps, i);
    EffectSpends(env, worlds[i], steps[i].report, steps[i].adapterOut, steps[i].isSupported, steps[i].now, s);
  }

  /** Of all deliveries of one call in a run, of one report or of several that name the same nonce of the
      same vault, at most one changes anything. */
  lemma OneEffectPerCall(env: Env, worlds: seq<World>, steps: seq<Step>, i: nat, j: nat)
    requires IsRun(env, worlds, steps) && i < j < |steps|
    requires steps[i].Delivery? && steps[j].Delivery? && SameCall(steps[i].report, steps[j].report)
    ensures worlds[i + 1] == worlds[i] || worlds[j + 1] == worlds[j]
  {
    DeliveryEffect(env, worlds, steps, i, steps[j].report);
    if worlds[i + 1] != worlds[i] {
      forall k | i + 1 <= k < j
        ensures Advances(worlds[k], worlds[k + 1])
      {
        RunAdvances(env, worlds, steps, k);
      }
      SpentForever(worlds, i + 1, j, steps[j].report);
      DeliveryEffect(env, worlds, steps, j, steps[j].report);
    }
  }

  // ----- the share supply -----

  function Minted(ledger: seq<Closed>): int {
    if ledger == [] then 0 else Minted(ledger[..|ledger| - 1]) + ledger[|ledger| - 1].epoch.minted
  }

  function Burned(ledger: seq<Closed>): int {
    if ledger == [] then 0 else Burned(ledger[..|ledger| - 1]) + ledger[|ledger| - 1].epoch.burn
  }

  lemma {:induction false} SupplyIsSum(ledger: seq<Closed>, fees: int)
    requires HandedOn(ledger)
    ensures Supply(ledger, fees) == Minted(ledger) - Burned(ledger) + fees
  {
    if ledger != [] {
      var front, last := ledger[..|ledger| - 1], ledger[|ledger| - 1];
      assert forall k :: 0 <= k < |front| ==> front[..k] == ledger[..k];
      SupplyIsSum(front, last.feesBefore);
    }
  }

  /** At every moment of a run the share supply is what all closes finally minted, less what they burned,
      plus the management fees: short deliveries, repeats and reorderings leave no share unaccounted for. */
  lemma SupplyIsAccountedFor(env: Env, worlds: seq<World>, steps: seq<Step>, t: nat)
    requires IsRun(env, worlds, steps) && t < |worlds|
    ensures var w := worlds[t];
            w.parent.totalShares == Minted(w.facts.ledger) - Burned(w.facts.ledger) + w.fees
  {
    RunKeeps(env, worlds, steps, t);
    SupplyIsSum(worlds[t].facts.ledger, worlds[t].fees);
  }

  // ----- the share price -----

  function Epochs(ledger: seq<Closed>): (es: seq<SettledEpoch>)
    ensures |es| == |ledger| && forall k :: 0 <= k < |es| ==> es[k] == ledger[k].epoch
  {
    seq(|ledger|, k requires 0 <= k < |ledger| => ledger[k].epoch)
  }

  /** From close `i` to close `j` of a ledger shares stay outstanding, no fee is minted, and the strategies
      lose nothing of what they hold between one close and the next. */
  predicate Undisturbed(ledger: seq<Closed>, i: nat, j: nat)
    requires i <= j < |ledger|
  {
    && (forall k :: i <= k <= j ==> ledger[k].epoch.supply != 0 && ledger[k].feesBefore == ledger[i].feesBefore)
    && (forall k :: i <= k < j ==> ledger[k + 1].epoch.tvl >= ledger[k].epoch.BackingAfter())
  }

  /** Whatever a run does in between, the closes of the parent vault never lower the price of a share, short
      deliveries included, as long as strategies lose nothing and no fee is minted. */
  lemma ClosesKeepThePrice(env: Env, worlds: seq<World>, steps: seq<Step>, t: nat, i: nat, j: nat)
    requires IsRun(env, worlds, steps) && t < |worlds|
    requires i <= j < |worlds[t].facts.ledger| && Undisturbed(worlds[t].facts.ledger, i, j)
    ensures var a, b := worlds[t].facts.ledger[i].epoch, worlds[t].facts.ledger[j].epoch;
            b.tvl * a.supply >= a.tvl * b.supply
  {
    RunKeeps(env, worlds, steps, t);
    LedgerPrices(env.Precision(), worlds[t].facts.ledger, i, j);
  }

  lemma LedgerPrices(precision: uint256, ledger: seq<Closed>, i: nat, j: nat)
    requires HandedOn(ledger) && i <= j < |ledger| && Undisturbed(ledger, i, j)
    ensures AllSettled(precision, ledger) ==>
              ledger[j].epoch.tvl * ledger[i].epoch.supply >= ledger[i].epoch.tvl * ledger[j].epoch.supply
  {
    if AllSettled(precision, ledger) {
      forall k | i <= k < j
        ensures ledger[k + 1].epoch.supply == ledger[k].epoch.SupplyAfter()
      {
        HandOn(ledger, k);
      }
      PriceNeverFalls(Epochs(ledger), precision, i, j);
    }
  }

  /** A close starts from the supply its predecessor left, plus the fees in between. */
  lemma HandOn(ledger: seq<Closed>, k: nat)
    requires HandedOn(ledger) && k + 1 < |ledger|
    ensures ledger[k + 1].epoch.supply
            == ledger[k].epoch.SupplyAfter() + ledger[k + 1].feesBefore - ledger[k].feesBefore
  {
    assert ledger[..k + 1][k] == ledger[k];
  }

  // ----- one direction at a time -----

  /** On a snapshot of any state a run goes through, what the guards leave open does not occur: no rebalance
      is in progress while an epoch's net flow is on its way, so never can both be completed. */
  lemma CompletionsExclude(env: Env, worlds: seq<World>, steps: seq<Step>, t: nat, v: V.State, s: Snapshot)
    requires IsRun(env, worlds, steps) && t < |worlds|
    requires v in worlds[t].history && Reads(s, v) && ValidSnapshot(env.cfg.evms, s)
    ensures !(CompletesRebalance(env.text, env.keccak, env.cfg, s) && CompletesDeposit(env.text, env.keccak, env.cfg, s))
  {
    RunKeeps(env, worlds, steps, t);
    ViewsRestBetween(worlds[t], v, s, env.cfg);
    CompletionsCoexistExactlyWhen(env.text, env.keccak, env.cfg, s);
  }

  lemma ViewsRestBetween(w: World, v: V.State, s: Snapshot, cfg: Config)
    requires HistoryOk(w.facts, w.history) && v in w.history && Reads(s, v) && ValidSnapshot(cfg.evms, s)
    ensures !(RebalanceAwaited(cfg, s) && DepositAwaited(cfg, s))
  {
    assert ViewOk(w.facts, v);
  }
}
