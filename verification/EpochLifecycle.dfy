/** The life of every epoch over a whole run: opened once, perhaps executing, claimable for good. */
module EpochLifecycle {
  import opened Results
  import opened Words
  import opened Bindings
  import opened Config
  import opened Handlers
  import opened Protocol
  import opened ProtocolSafety
  import V = ParentVault

  /** Epoch zero stays untouched, the current epoch is open, later ones do not exist yet, the previous one is
      executing or claimable, and all older ones are claimable. */
  ghost predicate EpochsOk(p: V.State) {
    forall n: uint256 ::
      && (n == 0 || n > p.epochNonce ==> p.EpochAt(n).status == EPOCH_NONE)
      && (n != 0 && n == p.epochNonce ==> p.EpochAt(n).status == EPOCH_OPEN)
      && (n != 0 && n + 1 == p.epochNonce ==> p.EpochAt(n).status in {EPOCH_EXECUTING, EPOCH_CLAIMABLE})
      && (n != 0 && n + 1 < p.epochNonce ==> p.EpochAt(n).status == EPOCH_CLAIMABLE)
  }

  /** An epoch only ever advances: its requests are frozen once it is no longer open, nothing of it changes
      while its net flow is on its way, and afterwards it only pays out. */
  predicate Advanced(a: Epoch<uint256>, b: Epoch<uint256>) {
    && a.status <= b.status
    && (a.status >= EPOCH_EXECUTING ==>
          b.totalDepositAmount == a.totalDepositAmount && b.totalShareBurnAmount == a.totalShareBurnAmount)
    && (a.status == EPOCH_EXECUTING && b.status == EPOCH_EXECUTING ==> a == b)
    && (a.status == EPOCH_CLAIMABLE ==> ClaimsOnly(a, b))
  }

  ghost predicate AllAdvanced(p: V.State, q: V.State) {
    forall n: uint256 :: Advanced(p.EpochAt(n), q.EpochAt(n))
  }

  lemma Unchanged(p: V.State, q: V.State)
    requires EpochsOk(p) && q.epochs == p.epochs && q.epochNonce == p.epochNonce
    ensures EpochsOk(q) && AllAdvanced(p, q)
  {
    assert forall n :: q.EpochAt(n) == p.EpochAt(n);
  }

  /** Writing one epoch forward. */
  lemma Written(p: V.State, q: V.State, n: uint256, e: Epoch<uint256>)
    requires EpochsOk(p) && Advanced(p.EpochAt(n), e)
    requires q.epochs == p.epochs[n := e] && q.epochNonce == p.epochNonce
    requires e.status == p.EpochAt(n).status || (n != 0 && n + 1 == p.epochNonce && e.status == EPOCH_CLAIMABLE)
    ensures EpochsOk(q) && AllAdvanced(p, q)
  {
    assert forall m :: m != n ==> q.EpochAt(m) == p.EpochAt(m);
    assert q.EpochAt(n) == e;
  }

  /** The next epoch is open, and only the closed one and the next one have changed. */
  predicate Reopened(p: V.State, q: V.State) {
    && q.epochNonce >= 1
    && q.epochs == p.epochs[q.epochNonce - 1 := q.PreviousEpoch()][q.epochNonce := q.CurrentEpoch()]
    && q.CurrentEpoch().status == EPOCH_OPEN && q.EpochAt(0) == p.EpochAt(0)
    && q.CurrentEpoch() == p.EpochAt(q.epochNonce).(status := EPOCH_OPEN, openedAtTimestamp := q.CurrentEpoch().openedAtTimestamp)
  }

  lemma CloseReopens(p: V.State, nonce: uint256, tvl: uint256, precision: uint256, isLocal: bool, adapterOut: uint256,
                     now: uint256, q: V.State, s: V.Settlement)
    ensures V.CloseEpoch(p, nonce, tvl, precision, isLocal, adapterOut, now) == Ok((q, s)) ==> Reopened(p, q)
  {
  }

  /** Closing the current epoch and opening the next. */
  lemma Succeeded(p: V.State, q: V.State, s: V.Settlement, isLocal: bool)
    requires EpochsOk(p) && p.epochNonce >= 1 && q.epochNonce == p.epochNonce + 1 && !Flying(p)
    requires Reopened(p, q) && ClosedAs(p.CurrentEpoch(), q.PreviousEpoch(), s, isLocal)
    ensures EpochsOk(q) && AllAdvanced(p, q)
  {
    var closed, next := p.epochNonce, q.epochNonce;
    assert forall m :: m != closed && m != next ==> q.EpochAt(m) == p.EpochAt(m);
    assert q.EpochAt(closed) == q.PreviousEpoch() && p.EpochAt(closed) == p.CurrentEpoch();
    assert q.EpochAt(next) == q.CurrentEpoch() && p.EpochAt(next).status == EPOCH_NONE;
    assert Advanced(p.EpochAt(closed), q.EpochAt(closed));
    assert Advanced(p.EpochAt(next), q.EpochAt(next));
  }

  lemma CompletionAdvances(p: V.State, nonce: uint256, actual: uint256)
    requires EpochsOk(p)
    ensures var r := V.CompleteEpochDeposit(p, nonce, actual);
            r.Ok? ==> EpochsOk(r.value.0) && AllAdvanced(p, r.value.0)
  {
    var r := V.CompleteEpochDeposit(p, nonce, actual);
    if r.Ok? {
      Written(p, r.value.0, p.epochNonce - 1, r.value.0.EpochAt(p.epochNonce - 1));
    }
  }

  lemma ReceiptAdvances(p: V.State, nonce: uint256, received: uint256)
    requires EpochsOk(p)
    ensures var r := V.ReceiveNetWithdraw(p, nonce, received);
            r.Ok? ==> EpochsOk(r.value) && AllAdvanced(p, r.value)
  {
    var r := V.ReceiveNetWithdraw(p, nonce, received);
    if r.Ok? {
      Written(p, r.value, p.epochNonce - 1, r.value.EpochAt(p.epochNonce - 1));
    }
  }

  lemma RebalancesTouchNoEpoch(env: Env, p: V.State, nonce: uint256, target: Strategy, isSupported: bool, now: uint256)
    requires EpochsOk(p)
    ensures var r := V.InitiateRebalance(p, nonce, target, env.ParentChain(), isSupported, now);
            r.Ok? ==> EpochsOk(r.value.0) && AllAdvanced(p, r.value.0)
    ensures var r := V.FinalizeRebalance(p, nonce, target, false, now);
            r.Ok? ==> EpochsOk(r.value.0) && AllAdvanced(p, r.value.0)
  {
    var initiated := V.InitiateRebalance(p, nonce, target, env.ParentChain(), isSupported, now);
    if initiated.Ok? {
      Unchanged(p, initiated.value.0);
    }
    var finalized := V.FinalizeRebalance(p, nonce, target, false, now);
    if finalized.Ok? {
      Unchanged(p, finalized.value.0);
    }
  }

  lemma DeliverAdvances(env: Env, w: World, r: Report, adapterOut: uint256, isSupported: bool, now: uint256)
    requires EpochsOk(w.parent) && w.parent.epochNonce >= 1
    ensures var q := Deliver(env, w, r, adapterOut, isSupported, now).parent;
            EpochsOk(q) && AllAdvanced(w.parent, q)
  {
    Unchanged(w.parent, w.parent);
    match r.call
    case CloseEpoch(nonce, tvl) =>
      var isLocal := w.parent.rebalance.activeStrategy.chainSelector == env.ParentChain();
      var closed := V.CloseEpoch(w.parent, nonce, tvl, env.Precision(), isLocal, adapterOut, now);
      if closed.Ok? {
        CloseFacts(w.parent, nonce, tvl, env.Precision(), isLocal, adapterOut, now, closed.value.0, closed.value.1);
        CloseReopens(w.parent, nonce, tvl, env.Precision(), isLocal, adapterOut, now, closed.value.0, closed.value.1);
        Succeeded(w.parent, closed.value.0, closed.value.1, isLocal);
      }
    case CompleteEpochDeposit(nonce, actual) => CompletionAdvances(w.parent, nonce, actual);
    case InitiateRebalance(nonce, target) => RebalancesTouchNoEpoch(env, w.parent, nonce, target, isSupported, now);
    case CompleteRebalance(nonce) =>
      RebalancesTouchNoEpoch(env, w.parent, nonce, w.parent.rebalance.pendingStrategy, isSupported, now);
    case _ =>
  }

  lemma StepAdvancesEpochs(env: Env, w: World, step: Step)
    requires env.Valid() && Enabled(env, w, step) && EpochsOk(w.parent) && w.parent.epochNonce >= 1
    ensures var q := Next(env, w, step).parent;
            EpochsOk(q) && AllAdvanced(w.parent, q)
  {
    Unchanged(w.parent, w.parent);
    match step
    case UserActivity(deposit, burn) =>
      var e := w.parent.CurrentEpoch().(totalDepositAmount := deposit, totalShareBurnAmount := burn);
      Written(w.parent, w.parent.WithEpoch(w.parent.epochNonce, e), w.parent.epochNonce, e);
    case Claim(nonce, claimed) => Written(w.parent, w.parent.WithEpoch(nonce, claimed), nonce, claimed);
    case Delivery(r, adapterOut, isSupported, now) => DeliverAdvances(env, w, r, adapterOut, isSupported, now);
    case WithdrawalArrives(nonce, received) => ReceiptAdvances(w.parent, nonce, received);
    case RebalanceArrives(newStrategy, now) =>
      RebalancesTouchNoEpoch(env, w.parent, w.parent.rebalance.nonce, newStrategy, false, now);
    case _ =>
  }

  /** In every state of a run the epochs are where the protocol says they are. */
  lemma {:induction false} EpochsAreInOrder(env: Env, worlds: seq<World>, steps: seq<Step>, i: nat)
    requires IsRun(env, worlds, steps) && i < |worlds|
    ensures EpochsOk(worlds[i].parent) && worlds[i].parent.epochNonce >= 1
  {
    if i != 0 {
      EpochsAreInOrder(env, worlds, steps, i - 1);
      StepAdvancesEpochs(env, worlds[i - 1], steps[i - 1]);
      RunKeeps(env, worlds, steps, i);
    }
  }

  lemma {:induction false} AdvancingIsTransitive(worlds: seq<World>, i: nat, j: nat, n: uint256)
    requires i <= j < |worlds|
    requires forall k :: i <= k < j ==> AllAdvanced(worlds[k].parent, worlds[k + 1].parent)
    ensures Advanced(worlds[i].parent.EpochAt(n), worlds[j].parent.EpochAt(n))
    decreases j
  {
    if i < j {
      AdvancingIsTransitive(worlds, i, j - 1, n);
      assert AllAdvanced(worlds[j - 1].parent, worlds[j - 1 + 1].parent);
    }
  }

  /** From any state of a run to any later one, every epoch only advances. */
  lemma EpochsOnlyAdvance(env: Env, worlds: seq<World>, steps: seq<Step>, i: nat, j: nat, n: uint256)
    requires IsRun(env, worlds, steps) && i <= j < |worlds|
    ensures Advanced(worlds[i].parent.EpochAt(n), worlds[j].parent.EpochAt(n))
  {
    forall k | i <= k < j
      ensures AllAdvanced(worlds[k].parent, worlds[k + 1].parent)
    {
      EpochsAreInOrder(env, worlds, steps, k);
      StepAdvancesEpochs(env, worlds[k], steps[k]);
    }
    AdvancingIsTransitive(worlds, i, j, n);
  }
}
