/** What every run of the protocol keeps. */
module ProtocolSafety {
  import opened Results
  import opened Words
  import opened Bindings
  import opened Config
  import opened Snapshot
  import opened Handlers
  import opened Preflight
  import opened SettlementTheorems
  import opened Protocol
  import V = ParentVault

  // ----- the invariant -----

  /** The previous epoch's net flow is on its way. */
  predicate Flying(p: V.State) {
    p.epochNonce > 1 && p.PreviousEpoch().status == EPOCH_EXECUTING
  }

  /** An epoch is always open, and no rebalance is in progress while a net flow is on its way. */
  predicate ParentOk(p: V.State) {
    && p.epochNonce >= 1 && p.CurrentEpoch().status == EPOCH_OPEN && p.EpochAt(0) == V.EMPTY_EPOCH
    && (Flying(p) ==> p.rebalance.state == REBALANCE_NONE)
  }

  /** The supply that the closes of the ledger and all fees add up to. */
  function Supply(ledger: seq<Closed>, fees: int): int {
    if ledger == [] then fees
    else
      var last := ledger[|ledger| - 1];
      last.epoch.SupplyAfter() + fees - last.feesBefore
  }

  /** The previous epoch of this state is the close `c`, priced but not yet reconciled. */
  predicate InTransit(p: V.State, c: Closed) {
    var e, s := p.PreviousEpoch(), c.epoch.settlement;
    && !c.epoch.isLocal && s.netFlow != 0 && p.rebalance.activeStrategy.chainSelector == c.chain
    && e.totalDepositAmount == c.epoch.deposit && e.totalWithdrawClaimAmount == s.totalWithdraw
    && e.remainingShareMintAmount == s.newShares && p.totalShares == s.totalShares
    && c.epoch.delivered == s.netFlow && c.epoch.minted == s.newShares
  }

  /** Every close started from the supply that all earlier closes and fees left. */
  predicate HandedOn(ledger: seq<Closed>) {
    forall k :: 0 <= k < |ledger| ==> ledger[k].epoch.supply == Supply(ledger[..k], ledger[k].feesBefore)
  }

  predicate AllSettled(precision: uint256, ledger: seq<Closed>) {
    forall k :: 0 <= k < |ledger| ==> ledger[k].epoch.Valid(precision)
  }

  /** Every close was settled by the rule on the supply handed on to it, and what is on its way is the last. */
  predicate LedgerOk(precision: uint256, p: V.State, ledger: seq<Closed>, fees: nat) {
    && |ledger| == p.epochNonce - 1 && AllSettled(precision, ledger) && HandedOn(ledger)
    && p.totalShares == Supply(ledger, fees)
    && (Flying(p) ==> ledger != [] && InTransit(p, ledger[|ledger| - 1]) && fees == ledger[|ledger| - 1].feesBefore)
  }

  predicate RebalanceOk(p: V.State, f: Facts) {
    && (forall n :: n in f.actives ==> n <= p.rebalance.nonce)
    && (forall n :: n in f.initiations ==> n <= p.rebalance.nonce)
    && (p.rebalance.nonce in f.initiations ==> p.rebalance.state == REBALANCING)
    && (p.rebalance.state == REBALANCE_NONE || p.rebalance.state == REBALANCING)
  }

  /** What a past or present state of the parent, read at any later time, still tells truly. */
  predicate ViewOk(f: Facts, v: V.State) {
    var r := v.rebalance;
    && r.nonce in f.actives && f.actives[r.nonce] == r.activeStrategy
    && (r.state == REBALANCING ==> r.nonce in f.initiations && f.initiations[r.nonce] == r.pendingStrategy)
    && (Flying(v) ==>
          && v.epochNonce - 2 < |f.ledger| && r.state == REBALANCE_NONE
          && var c := f.ledger[v.epochNonce - 2];
             !c.epoch.isLocal && r.activeStrategy.chainSelector == c.chain
             && v.PreviousEpoch().totalDepositAmount - v.PreviousEpoch().totalWithdrawClaimAmount == c.epoch.settlement.netFlow)
  }

  predicate LogOk(f: Facts, e: Event) {
    match e
    case RebalanceInitiated(nonce, target) => nonce in f.initiations && f.initiations[nonce] == target
    case EpochWithdrawExecuting(nonce, amount) =>
      1 <= nonce <= |f.ledger| && WithdrawalOk(f, Withdrawal(f.ledger[nonce - 1].chain, nonce, amount))
    case _ => true
  }

  /** The withdrawal is the remote net withdrawal of its epoch, on the chain that was active at the close. */
  predicate WithdrawalOk(f: Facts, x: Withdrawal) {
    && 1 <= x.nonce <= |f.ledger|
    && var c := f.ledger[x.nonce - 1];
       x.chain == c.chain && !c.epoch.isLocal && 0 < x.amount == -c.epoch.settlement.netFlow
  }

  /** The move is the one initiated on chain under its nonce, away from the strategy active then. */
  predicate MoveOk(f: Facts, m: Move) {
    && m.nonce in f.actives && f.actives[m.nonce].chainSelector == m.chain
    && m.nonce in f.initiations && f.initiations[m.nonce] == m.newStrategy
  }

  predicate ReportOk(f: Facts, r: Report) {
    match r.call
    case ExecuteEpochWithdraw(nonce, amount) => WithdrawalOk(f, Withdrawal(r.target.chainSelector, nonce, amount))
    case ExecuteRebalance(nonce, target) => MoveOk(f, Move(r.target.chainSelector, nonce, target))
    case _ => true
  }

  /** Handled in strictly increasing order on each child. */
  predicate WithdrawalsOk(f: Facts, xs: seq<Withdrawal>, nonces: map<uint64, uint256>) {
    && (forall i :: 0 <= i < |xs| ==> WithdrawalOk(f, xs[i]) && xs[i].nonce <= Handled(nonces, xs[i].chain))
    && (forall i, j :: 0 <= i < j < |xs| && xs[i].chain == xs[j].chain ==> xs[i].nonce < xs[j].nonce)
  }

  predicate MovesOk(f: Facts, ms: seq<Move>, nonces: map<uint64, uint256>) {
    && (forall i :: 0 <= i < |ms| ==> MoveOk(f, ms[i]) && ms[i].nonce <= Handled(nonces, ms[i].chain))
    && (forall i, j :: 0 <= i < j < |ms| && ms[i].chain == ms[j].chain ==> ms[i].nonce < ms[j].nonce)
  }

  predicate HistoryOk(f: Facts, history: seq<V.State>) {
    forall v :: v in history ==> ViewOk(f, v)
  }

  predicate LogsOk(f: Facts, logs: set<Event>) {
    forall e :: e in logs ==> LogOk(f, e)
  }

  predicate ReportsOk(f: Facts, reports: set<Report>) {
    forall r :: r in reports ==> ReportOk(f, r)
  }

  /** What the parent has shown or emitted, what the workflow has said, and what the children have done,
      all agrees with what has happened on chain. */
  predicate RecordsOk(w: World) {
    && HistoryOk(w.facts, w.history) && LogsOk(w.facts, w.logs) && ReportsOk(w.facts, w.reports)
    && WithdrawalsOk(w.facts, w.withdrawals, w.handledEpochs) && MovesOk(w.facts, w.moves, w.handledRebalances)
  }

  predicate Inv(env: Env, w: World) {
    && ParentOk(w.parent) && LedgerOk(env.Precision(), w.parent, w.facts.ledger, w.fees)
    && RebalanceOk(w.parent, w.facts) && ViewOk(w.facts, w.parent)
    && RecordsOk(w)
  }

  // ----- what is once recorded stays -----

  predicate SameClose(a: Closed, b: Closed) {
    a.chain == b.chain && a.epoch.isLocal == b.epoch.isLocal && a.epoch.settlement == b.epoch.settlement
  }

  /** Facts are only added: no close, active strategy or initiation is ever revised. */
  predicate Extends(f: Facts, g: Facts) {
    && |f.ledger| <= |g.ledger| && (forall k :: 0 <= k < |f.ledger| ==> SameClose(f.ledger[k], g.ledger[k]))
    && (forall n :: n in f.actives ==> n in g.actives && g.actives[n] == f.actives[n])
    && (forall n :: n in f.initiations ==> n in g.initiations && g.initiations[n] == f.initiations[n])
  }

  lemma ExtendsKeepsView(f: Facts, g: Facts, v: V.State)
    requires Extends(f, g) && ViewOk(f, v)
    ensures ViewOk(g, v)
  {
  }

  lemma ExtendsKeepsWithdrawal(f: Facts, g: Facts, x: Withdrawal)
    requires Extends(f, g) && WithdrawalOk(f, x)
    ensures WithdrawalOk(g, x)
  {
    assert SameClose(f.ledger[x.nonce - 1], g.ledger[x.nonce - 1]);
  }

  lemma ExtendsKeepsLog(f: Facts, g: Facts, e: Event)
    requires Extends(f, g) && LogOk(f, e)
    ensures LogOk(g, e)
  {
    if e.EpochWithdrawExecuting? {
      ExtendsKeepsWithdrawal(f, g, Withdrawal(f.ledger[e.epochNonce - 1].chain, e.epochNonce, e.amount));
    }
  }

  lemma ExtendsKeepsReport(f: Facts, g: Facts, r: Report)
    requires Extends(f, g) && ReportOk(f, r)
    ensures ReportOk(g, r)
  {
    if r.call.ExecuteEpochWithdraw? {
      ExtendsKeepsWithdrawal(f, g, Withdrawal(r.target.chainSelector, r.call.epochNonce, r.call.amount));
    }
  }

  /** More facts leave every record as true as it was. */
  lemma ExtendsKeepsRecords(w: World, g: Facts)
    requires RecordsOk(w) && Extends(w.facts, g)
    ensures RecordsOk(w.(facts := g))
  {
    forall v | v in w.history
      ensures ViewOk(g, v)
    {
      ExtendsKeepsView(w.facts, g, v);
    }
    forall e | e in w.logs
      ensures LogOk(g, e)
    {
      ExtendsKeepsLog(w.facts, g, e);
    }
    forall r | r in w.reports
      ensures ReportOk(g, r)
    {
      ExtendsKeepsReport(w.facts, g, r);
    }
    forall i | 0 <= i < |w.withdrawals|
      ensures WithdrawalOk(g, w.withdrawals[i])
    {
      ExtendsKeepsWithdrawal(w.facts, g, w.withdrawals[i]);
    }
  }

  /** A move of the parent keeps every record, if it only adds facts and emits only true logs. */
  lemma ParentMoved(w: World, w': World, emitted: set<Event>)
    requires RecordsOk(w) && Extends(w.facts, w'.facts)
    requires w'.reports == w.reports && w'.withdrawals == w.withdrawals && w'.moves == w.moves
    requires w'.handledEpochs == w.handledEpochs && w'.handledRebalances == w.handledRebalances
    requires w'.history == w.history + [w'.parent] && ViewOk(w'.facts, w'.parent)
    requires w'.logs == w.logs + emitted && LogsOk(w'.facts, emitted)
    ensures RecordsOk(w')
  {
    ExtendsKeepsRecords(w, w'.facts);
  }

  // ----- what each vault operation does -----

  lemma CloseFacts(p: V.State, nonce: uint256, tvl: uint256, precision: uint256, isLocal: bool, adapterOut: uint256,
                   now: uint256, q: V.State, s: V.Settlement)
    ensures V.CloseEpoch(p, nonce, tvl, precision, isLocal, adapterOut, now) == Ok((q, s)) ==>
              && nonce == p.epochNonce >= 1 && q.epochNonce == p.epochNonce + 1 && !Flying(p)
              && p.rebalance.state == REBALANCE_NONE && q.rebalance == p.rebalance && q.totalShares == s.totalShares
              && V.Settle(p.CurrentEpoch().totalDepositAmount, p.CurrentEpoch().totalShareBurnAmount, p.totalShares, tvl,
                          precision, isLocal) == Ok(s)
              && q.CurrentEpoch().status == EPOCH_OPEN && q.EpochAt(0) == p.EpochAt(0)
              && ClosedAs(p.CurrentEpoch(), q.PreviousEpoch(), s, isLocal)
  {
  }

  /** What closing makes of the epoch. */
  predicate ClosedAs(before: Epoch<uint256>, e: Epoch<uint256>, s: V.Settlement, isLocal: bool) {
    && before.status == EPOCH_OPEN
    && e.totalDepositAmount == before.totalDepositAmount && e.totalShareBurnAmount == before.totalShareBurnAmount
    && e.remainingShareMintAmount == s.newShares
    && e.status == (if !isLocal && s.netFlow != 0 then EPOCH_EXECUTING else EPOCH_CLAIMABLE)
    && (!isLocal ==> e.totalWithdrawClaimAmount == s.totalWithdraw)
  }

  lemma DeliveryFacts(p: V.State, nonce: uint256, actual: uint256, q: V.State, minted: uint256)
    requires V.CompleteEpochDeposit(p, nonce, actual) == Ok((q, minted))
    ensures Flying(p) && q.epochNonce == p.epochNonce && q.rebalance == p.rebalance && !Flying(q)
    ensures q.CurrentEpoch() == p.CurrentEpoch() && q.EpochAt(0) == p.EpochAt(0)
    ensures V.Reconcile(p.PreviousEpoch().totalDepositAmount, p.PreviousEpoch().totalWithdrawClaimAmount,
                        p.PreviousEpoch().remainingShareMintAmount, p.totalShares, actual) == Ok(minted)
    ensures q.totalShares == p.totalShares - (p.PreviousEpoch().remainingShareMintAmount - minted)
  {
  }

  lemma ReceiptFacts(p: V.State, nonce: uint256, received: uint256, q: V.State)
    requires V.ReceiveNetWithdraw(p, nonce, received) == Ok(q) && p.EpochAt(0) == V.EMPTY_EPOCH
    ensures Flying(p) && !Flying(q) && q.epochNonce == p.epochNonce && q.CurrentEpoch() == p.CurrentEpoch()
    ensures q.rebalance == p.rebalance && q.totalShares == p.totalShares && q.EpochAt(0) == p.EpochAt(0)
  {
  }

  lemma FinalizeFacts(p: V.State, nonce: uint256, newStrategy: Strategy, isLocalToLocal: bool, now: uint256,
                      q: V.State, fee: uint256)
    requires V.FinalizeRebalance(p, nonce, newStrategy, isLocalToLocal, now) == Ok((q, fee))
    ensures isLocalToLocal || p.rebalance.state == REBALANCING
    ensures q.epochNonce == p.epochNonce && q.epochs == p.epochs && q.totalShares == p.totalShares + fee
    ensures q.rebalance.nonce == p.rebalance.nonce + 1 && q.rebalance.activeStrategy == newStrategy
    ensures q.rebalance.state == if isLocalToLocal then p.rebalance.state else REBALANCE_NONE
  {
  }

  lemma InitiateFacts(p: V.State, nonce: uint256, target: Strategy, thisChain: uint64, isSupported: bool, now: uint256,
                      q: V.State, fee: uint256)
    requires V.InitiateRebalance(p, nonce, target, thisChain, isSupported, now) == Ok((q, fee))
    ensures nonce == p.rebalance.nonce && p.rebalance.state == REBALANCE_NONE && !Flying(p)
    ensures q.epochNonce == p.epochNonce && q.epochs == p.epochs && q.totalShares == p.totalShares + fee
    ensures || (q.rebalance.nonce == nonce + 1 && q.rebalance.activeStrategy == target && q.rebalance.state == REBALANCE_NONE)
            || (fee == 0
                && q.rebalance == p.rebalance.(state := REBALANCING, pendingStrategy := target))
  {
  }

  // ----- each step keeps the invariant -----

  /** The supply account after one more close. */
  lemma CloseHandsOn(ledger: seq<Closed>, c: Closed, fees: nat)
    requires HandedOn(ledger) && c.epoch.supply == Supply(ledger, fees) && c.feesBefore == fees
    ensures HandedOn(ledger + [c]) && Supply(ledger + [c], fees) == c.epoch.SupplyAfter()
  {
    assert (ledger + [c])[..|ledger|] == ledger;
    assert forall k :: 0 <= k < |ledger| ==> (ledger + [c])[..k] == ledger[..k];
  }

  /** A settlement as it enters the ledger. */
  lemma SettledIsValid(deposit: uint256, burn: uint256, supply: uint256, tvl: uint256, precision: uint256, isLocal: bool,
                       s: V.Settlement)
    ensures V.Settle(deposit, burn, supply, tvl, precision, isLocal) == Ok(s) ==>
              var e := SettledEpoch(deposit, burn, supply, tvl, isLocal, s, s.netFlow, s.newShares);
              && e.Valid(precision) && e.SupplyAfter() == s.totalShares
              && s.netFlow == deposit - s.totalWithdraw && -TWO_255 < s.netFlow < TWO_255
  {
    if V.Settle(deposit, burn, supply, tvl, precision, isLocal) == Ok(s) {
      SettleFacts(deposit, burn, supply, tvl, precision, isLocal, s);
    }
  }

  /** The facts after a close, and the log of a withdrawal it leaves owing. */
  lemma CloseAddsFacts(p: V.State, f: Facts, q: V.State, c: Closed, nonce: uint256, amount: uint256)
    requires RebalanceOk(p, f) && ViewOk(f, p) && p.rebalance.state == REBALANCE_NONE && q.rebalance == p.rebalance
    requires |f.ledger| + 1 == nonce == p.epochNonce && q.epochNonce == nonce + 1
    requires c.epoch.settlement.netFlow == c.epoch.deposit - c.epoch.settlement.totalWithdraw
    requires c.chain == p.rebalance.activeStrategy.chainSelector && (Flying(q) ==> InTransit(q, c))
    ensures var g := f.(ledger := f.ledger + [c]);
            && Extends(f, g) && RebalanceOk(q, g) && ViewOk(g, q)
            && (!c.epoch.isLocal && 0 < amount == -c.epoch.settlement.netFlow ==>
                  LogOk(g, EpochWithdrawExecuting(nonce, amount)))
  {
  }

  /** The new state, its ledger entry and the withdrawal it leaves owing belong to a close of this state. */
  predicate Fits(precision: uint256, w: World, q: V.State, c: Closed, owed: uint256) {
    && !Flying(w.parent) && w.parent.rebalance.state == REBALANCE_NONE
    && w.parent.epochNonce + 1 == q.epochNonce && q.rebalance == w.parent.rebalance
    && ParentOk(q) && (Flying(q) ==> InTransit(q, c))
    && c.chain == q.rebalance.activeStrategy.chainSelector && c.feesBefore == w.fees
    && c.epoch.Valid(precision) && c.epoch.supply == w.parent.totalShares && q.totalShares == c.epoch.SupplyAfter()
    && c.epoch.settlement.netFlow == c.epoch.deposit - c.epoch.settlement.totalWithdraw
    && (owed == 0 || (!c.epoch.isLocal && owed == -c.epoch.settlement.netFlow))
  }

  lemma CloseFits(env: Env, w: World, nonce: uint256, tvl: uint256, adapterOut: uint256, now: uint256,
                  q: V.State, s: V.Settlement)
    requires ParentOk(w.parent)
    ensures Close(env, w, nonce, tvl, adapterOut, now) == Ok((q, s)) ==>
              Fits(env.Precision(), w, q, Entry(w, tvl, IsLocal(env, w), s), Owed(IsLocal(env, w), s))
  {
    var e := w.parent.CurrentEpoch();
    CloseFacts(w.parent, nonce, tvl, env.Precision(), IsLocal(env, w), adapterOut, now, q, s);
    SettledIsValid(e.totalDepositAmount, e.totalShareBurnAmount, w.parent.totalShares, tvl, env.Precision(),
                   IsLocal(env, w), s);
  }

  /** Recording a close that fits adds one settled entry to the ledger. */
  lemma CloseRecordsLedger(precision: uint256, w: World, q: V.State, c: Closed, owed: uint256)
    requires LedgerOk(precision, w.parent, w.facts.ledger, w.fees) && Fits(precision, w, q, c, owed)
    ensures LedgerOk(precision, q, w.facts.ledger + [c], w.fees)
  {
    CloseHandsOn(w.facts.ledger, c, w.fees);
  }

  /** Recording a close that fits keeps every record. */
  lemma CloseRecordsRest(precision: uint256, w: World, q: V.State, c: Closed, owed: uint256)
    requires RebalanceOk(w.parent, w.facts) && ViewOk(w.facts, w.parent) && RecordsOk(w)
    requires |w.facts.ledger| + 1 == w.parent.epochNonce && Fits(precision, w, q, c, owed)
    ensures var w' := RecordClose(w, q, c, owed);
            RebalanceOk(w'.parent, w'.facts) && ViewOk(w'.facts, w'.parent) && RecordsOk(w')
  {
    CloseAddsFacts(w.parent, w.facts, q, c, w.parent.epochNonce, owed);
    ParentMoved(w, RecordClose(w, q, c, owed), if owed == 0 then {} else {EpochWithdrawExecuting(w.parent.epochNonce, owed)});
  }

  lemma CloseRecorded(env: Env, w: World, q: V.State, c: Closed, owed: uint256)
    requires Inv(env, w) && Fits(env.Precision(), w, q, c, owed)
    ensures Inv(env, RecordClose(w, q, c, owed))
  {
    CloseRecordsLedger(env.Precision(), w, q, c, owed);
    CloseRecordsRest(env.Precision(), w, q, c, owed);
  }

  lemma CloseKeeps(env: Env, w: World, nonce: uint256, tvl: uint256, adapterOut: uint256, now: uint256)
    requires Inv(env, w)
    ensures Inv(env, AfterClose(env, w, nonce, tvl, adapterOut, now))
  {
    match Close(env, w, nonce, tvl, adapterOut, now)
    case Err(_) =>
    case Ok((q, s)) =>
      CloseFits(env, w, nonce, tvl, adapterOut, now, q, s);
      CloseRecorded(env, w, q, Entry(w, tvl, IsLocal(env, w), s), Owed(IsLocal(env, w), s));
  }

  /** Reconciling the last close takes the mint that did not arrive off the supply. */
  lemma DeliveryHandsOn(ledger: seq<Closed>, fees: nat, actual: uint256, minted: uint256)
    requires HandedOn(ledger) && ledger != []
    ensures HandedOn(Reconciled(ledger, actual, minted))
    ensures Supply(Reconciled(ledger, actual, minted), fees)
            == Supply(ledger, fees) - (ledger[|ledger| - 1].epoch.minted - minted)
  {
    assert forall k :: 0 <= k < |ledger| ==> Reconciled(ledger, actual, minted)[..k] == ledger[..k];
  }

  lemma ReconcileExtends(f: Facts, actual: uint256, minted: uint256)
    ensures Extends(f, f.(ledger := Reconciled(f.ledger, actual, minted)))
  {
  }

  lemma DeliveryKeeps(env: Env, w: World, nonce: uint256, actual: uint256)
    requires Inv(env, w)
    ensures Inv(env, AfterDelivery(w, nonce, actual))
  {
    var w' := AfterDelivery(w, nonce, actual);
    var completed := V.CompleteEpochDeposit(w.parent, nonce, actual);
    if completed.Ok? {
      var (q, minted) := completed.value;
      DeliveryFacts(w.parent, nonce, actual, q, minted);
      var c := w.facts.ledger[|w.facts.ledger| - 1];
      ReconcileAccepts(c.epoch.deposit, c.epoch.settlement.totalWithdraw, c.epoch.settlement.newShares,
                       c.epoch.settlement.totalShares, actual);
      SettleFacts(c.epoch.deposit, c.epoch.burn, c.epoch.supply, c.epoch.tvl, env.Precision(), c.epoch.isLocal,
                  c.epoch.settlement);
      DeliveryHandsOn(w.facts.ledger, w.fees, actual, minted);
      ReconcileExtends(w.facts, actual, minted);
      ParentMoved(w, w', w'.logs - w.logs);
    }
  }

  lemma ReceiptKeeps(env: Env, w: World, nonce: uint256, received: uint256)
    requires Inv(env, w)
    ensures var r := V.ReceiveNetWithdraw(w.parent, nonce, received);
            r.Ok? ==> Inv(env, w.Moved(r.value))
  {
    var r := V.ReceiveNetWithdraw(w.parent, nonce, received);
    if r.Ok? {
      ReceiptFacts(w.parent, nonce, received, r.value);
      ParentMoved(w, w.Moved(r.value), {});
    }
  }

  /** Moving on to the next rebalance nonce, from a state in which nothing is on its way. */
  lemma FinalizeKeeps(env: Env, w: World, newStrategy: Strategy, isLocalToLocal: bool, now: uint256, q: V.State,
                      fee: uint256)
    requires Inv(env, w) && !Flying(w.parent)
    requires V.FinalizeRebalance(w.parent, w.parent.rebalance.nonce, newStrategy, isLocalToLocal, now) == Ok((q, fee))
    requires isLocalToLocal ==> w.parent.rebalance.state == REBALANCE_NONE
    ensures Inv(env, AfterFinalize(w, q, fee))
  {
    FinalizeFacts(w.parent, w.parent.rebalance.nonce, newStrategy, isLocalToLocal, now, q, fee);
    ParentMoved(w, AfterFinalize(w, q, fee), {});
  }

  /** The facts after an initiation, whether it is pending or already finalized. */
  lemma InitiateAddsFacts(p: V.State, f: Facts, target: Strategy, q: V.State)
    requires RebalanceOk(p, f) && ViewOk(f, p) && p.rebalance.state == REBALANCE_NONE
    requires || (q.rebalance.nonce == p.rebalance.nonce + 1 && q.rebalance.activeStrategy == target
                 && q.rebalance.state == REBALANCE_NONE)
             || q.rebalance == p.rebalance.(state := REBALANCING, pendingStrategy := target)
    requires !Flying(q)
    ensures var g := Facts(f.ledger, f.actives[q.rebalance.nonce := q.rebalance.activeStrategy],
                           f.initiations[p.rebalance.nonce := target]);
            Extends(f, g) && RebalanceOk(q, g) && ViewOk(g, q)
  {
  }

  lemma InitiateKeeps(env: Env, w: World, nonce: uint256, target: Strategy, isSupported: bool, now: uint256)
    requires Inv(env, w)
    ensures Inv(env, AfterInitiate(env, w, nonce, target, isSupported, now))
  {
    var w' := AfterInitiate(env, w, nonce, target, isSupported, now);
    var initiated := V.InitiateRebalance(w.parent, nonce, target, env.ParentChain(), isSupported, now);
    if initiated.Ok? {
      var (q, fee) := initiated.value;
      InitiateFacts(w.parent, nonce, target, env.ParentChain(), isSupported, now, q, fee);
      InitiateAddsFacts(w.parent, w.facts, target, q);
      ParentMoved(w, w', {RebalanceInitiated(nonce, target)});
    }
  }

  lemma CompleteKeeps(env: Env, w: World, nonce: uint256, now: uint256)
    requires Inv(env, w)
    ensures Inv(env, AfterComplete(env, w, nonce, now))
  {
    var completed := V.CompleteRebalance(w.parent, nonce, env.ParentChain(), now);
    if completed.Ok? {
      var (q, fee) := completed.value;
      FinalizeFacts(w.parent, nonce, w.parent.rebalance.pendingStrategy, false, now, q, fee);
      FinalizeKeeps(env, w, w.parent.rebalance.pendingStrategy, false, now, q, fee);
    }
  }

  lemma ArrivalKeeps(env: Env, w: World, newStrategy: Strategy, now: uint256)
    requires Inv(env, w)
    ensures var r := V.FinalizeRebalance(w.parent, w.parent.rebalance.nonce, newStrategy, false, now);
            r.Ok? ==> Inv(env, AfterFinalize(w, r.value.0, r.value.1))
  {
    var r := V.FinalizeRebalance(w.parent, w.parent.rebalance.nonce, newStrategy, false, now);
    if r.Ok? {
      FinalizeFacts(w.parent, w.parent.rebalance.nonce, newStrategy, false, now, r.value.0, r.value.1);
      FinalizeKeeps(env, w, newStrategy, false, now, r.value.0, r.value.1);
    }
  }

  /** Requests and claims touch nothing that an epoch on its way or a past close depends on. */
  lemma UserKeeps(env: Env, w: World, nonce: uint256, epoch: Epoch<uint256>)
    requires Inv(env, w)
    requires epoch.status == w.parent.EpochAt(nonce).status
    requires epoch.status == EPOCH_OPEN || epoch.status == EPOCH_CLAIMABLE
    ensures Inv(env, w.Moved(w.parent.WithEpoch(nonce, epoch)))
  {
    var p, q := w.parent, w.parent.WithEpoch(nonce, epoch);
    assert Flying(q) ==> Flying(p) && q.PreviousEpoch() == p.PreviousEpoch();
    ParentMoved(w, w.Moved(q), {});
  }

  lemma WithdrawalAppended(f: Facts, xs: seq<Withdrawal>, nonces: map<uint64, uint256>, x: Withdrawal)
    requires WithdrawalsOk(f, xs, nonces) && WithdrawalOk(f, x) && x.nonce > Handled(nonces, x.chain)
    ensures WithdrawalsOk(f, xs + [x], nonces[x.chain := x.nonce])
  {
  }

  lemma MoveAppended(f: Facts, ms: seq<Move>, nonces: map<uint64, uint256>, m: Move)
    requires MovesOk(f, ms, nonces) && MoveOk(f, m) && m.nonce > Handled(nonces, m.chain)
    ensures MovesOk(f, ms + [m], nonces[m.chain := m.nonce])
  {
  }

  lemma WithdrawKeeps(env: Env, w: World, chain: uint64, nonce: uint256, amount: uint256)
    requires Inv(env, w) && WithdrawalOk(w.facts, Withdrawal(chain, nonce, amount))
    ensures Inv(env, AfterWithdraw(w, chain, nonce, amount))
  {
    if amount != 0 && nonce > Handled(w.handledEpochs, chain) {
      WithdrawalAppended(w.facts, w.withdrawals, w.handledEpochs, Withdrawal(chain, nonce, amount));
    }
  }

  lemma MoveKeeps(env: Env, w: World, chain: uint64, nonce: uint256, target: Strategy)
    requires Inv(env, w) && MoveOk(w.facts, Move(chain, nonce, target))
    ensures Inv(env, AfterMove(w, chain, nonce, target))
  {
    if nonce > Handled(w.handledRebalances, chain) {
      MoveAppended(w.facts, w.moves, w.handledRebalances, Move(chain, nonce, target));
    }
  }

  lemma HigherNoncesKeep(f: Facts, xs: seq<Withdrawal>, ms: seq<Move>, epochs: map<uint64, uint256>,
                         rebalances: map<uint64, uint256>, chain: uint64, epochNonce: uint256, rebalanceNonce: uint256)
    requires WithdrawalsOk(f, xs, epochs) && MovesOk(f, ms, rebalances)
    requires epochNonce >= Handled(epochs, chain) && rebalanceNonce >= Handled(rebalances, chain)
    ensures WithdrawalsOk(f, xs, epochs[chain := epochNonce]) && MovesOk(f, ms, rebalances[chain := rebalanceNonce])
  {
  }

  lemma ProgressKeeps(env: Env, w: World, chain: uint64, epochNonce: uint256, rebalanceNonce: uint256)
    requires env.Valid() && Inv(env, w) && Enabled(env, w, ChildProgress(chain, epochNonce, rebalanceNonce))
    ensures Inv(env, Next(env, w, ChildProgress(chain, epochNonce, rebalanceNonce)))
  {
    HigherNoncesKeep(w.facts, w.withdrawals, w.moves, w.handledEpochs, w.handledRebalances, chain, epochNonce, rebalanceNonce);
  }

  /** Whatever an execution decides on a past view and a genuine log is true of the closes and initiations
      on chain. */
  lemma SubmissionIsTrue(env: Env, w: World, v: V.State, snapshot: Snapshot, trigger: Trigger)
    requires env.Valid() && Inv(env, w) && v in w.history && Reads(snapshot, v)
    requires ValidSnapshot(env.cfg.evms, snapshot) && Genuine(env, w, trigger)
    requires Execute(env.text, env.keccak, env.cfg, snapshot, trigger).Submit?
    ensures ReportOk(w.facts, Execute(env.text, env.keccak, env.cfg, snapshot, trigger).report)
  {
    SubmissionsAreJustified(env.text, env.keccak, env.cfg, snapshot, trigger);
    JustifiedIsTrue(env, w, v, snapshot, Execute(env.text, env.keccak, env.cfg, snapshot, trigger).report, trigger);
  }

  lemma JustifiedIsTrue(env: Env, w: World, v: V.State, snapshot: Snapshot, r: Report, trigger: Trigger)
    requires Inv(env, w) && v in w.history && Reads(snapshot, v)
    requires ValidSnapshot(env.cfg.evms, snapshot) && Genuine(env, w, trigger)
    requires Justified(env.cfg, snapshot, r.target, r.call)
    requires r.call.ExecuteRebalance? ==>
               && trigger.LogTrigger? && trigger.log.Some?
               && AnswersLog(env.cfg, snapshot, r.call, trigger.subscribed.chainSelector, trigger.log.value.address, trigger.log.value.event)
    ensures ReportOk(w.facts, r)
  {
    assert ViewOk(w.facts, v);
    if r.call.ExecuteRebalance? {
      assert LogOk(w.facts, trigger.log.value.event);
    }
  }

  lemma ExecutionKeeps(env: Env, w: World, view: nat, snapshot: Snapshot, trigger: Trigger)
    requires env.Valid() && Inv(env, w) && Enabled(env, w, Execution(view, snapshot, trigger))
    ensures Inv(env, Next(env, w, Execution(view, snapshot, trigger)))
  {
    var o := Execute(env.text, env.keccak, env.cfg, snapshot, trigger);
    if o.Submit? {
      SubmissionIsTrue(env, w, w.history[view], snapshot, trigger);
      ReportRecorded(env, w, o.report);
    }
  }

  lemma ReportRecorded(env: Env, w: World, r: Report)
    requires Inv(env, w) && ReportOk(w.facts, r)
    ensures Inv(env, w.(reports := w.reports + {r}))
  {
  }

  lemma ReportDelivered(env: Env, w: World, r: Report, adapterOut: uint256, isSupported: bool, now: uint256)
    requires Inv(env, w) && r in w.reports
    ensures Inv(env, Deliver(env, w, r, adapterOut, isSupported, now))
  {
    assert ReportOk(w.facts, r);
    match r.call
    case CloseEpoch(nonce, tvl) => CloseKeeps(env, w, nonce, tvl, adapterOut, now);
    case CompleteEpochDeposit(nonce, actual) => DeliveryKeeps(env, w, nonce, actual);
    case InitiateRebalance(nonce, target) => InitiateKeeps(env, w, nonce, target, isSupported, now);
    case CompleteRebalance(nonce) => CompleteKeeps(env, w, nonce, now);
    case ExecuteEpochWithdraw(nonce, amount) => WithdrawKeeps(env, w, r.target.chainSelector, nonce, amount);
    case ExecuteRebalance(nonce, target) => MoveKeeps(env, w, r.target.chainSelector, nonce, target);
  }

  /** Every step, in any order and any number of times, keeps the invariant. */
  lemma StepKeeps(env: Env, w: World, step: Step)
    requires env.Valid() && Inv(env, w) && Enabled(env, w, step)
    ensures Inv(env, Next(env, w, step))
  {
    match step
    case UserActivity(deposit, burn) =>
      UserKeeps(env, w, w.parent.epochNonce,
                w.parent.CurrentEpoch().(totalDepositAmount := deposit, totalShareBurnAmount := burn));
    case Claim(nonce, claimed) => UserKeeps(env, w, nonce, claimed);
    case Execution(view, snapshot, trigger) => ExecutionKeeps(env, w, view, snapshot, trigger);
    case Delivery(r, adapterOut, isSupported, now) => ReportDelivered(env, w, r, adapterOut, isSupported, now);
    case ChildProgress(chain, epochNonce, rebalanceNonce) => ProgressKeeps(env, w, chain, epochNonce, rebalanceNonce);
    case WithdrawalArrives(nonce, received) => ReceiptKeeps(env, w, nonce, received);
    case RebalanceArrives(newStrategy, now) => ArrivalKeeps(env, w, newStrategy, now);
  }

  lemma DeploymentKeeps(env: Env, protocolId: ProtocolId, now: uint256)
    ensures Inv(env, Deployed(env, protocolId, now))
  {
  }

  lemma {:induction false} RunKeeps(env: Env, worlds: seq<World>, steps: seq<Step>, i: nat)
    requires IsRun(env, worlds, steps) && i < |worlds|
    ensures Inv(env, worlds[i])
  {
    if i == 0 {
      var protocolId, now :| worlds[0] == Deployed(env, protocolId, now);
      DeploymentKeeps(env, protocolId, now);
    } else {
      RunKeeps(env, worlds, steps, i - 1);
      StepKeeps(env, worlds[i - 1], steps[i - 1]);
    }
  }
}
