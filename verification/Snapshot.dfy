/** One consistent read of the vaults, and what validating it guarantees to every handler. */
module Snapshot {
  import opened Results
  import opened Words
  import opened Bindings
  import opened Config
  import ParentVault

  const MAX_RECOVERY_MODE: uint8 := 5

  /** An integer as the bindings deliver it: possibly nil, of any sign and size. */
  datatype Num = Nil | Num(v: int)

  datatype ParentView = ParentView(
    paused: bool,
    recoveryMode: uint8,
    currentEpochNonce: Num,
    currentEpoch: Epoch<Num>,
    previousEpoch: Epoch<Num>,
    rebalance: Rebalance<Num>,
    totalShares: Num,
    tvl: Num)

  datatype ChildView = ChildView(
    paused: bool,
    recoveryMode: uint8,
    lastHandledEpochNonce: Num,
    lastHandledRebalanceNonce: Num,
    tvl: Num)

  datatype Snapshot = Snapshot(observedAt: int64, parent: ParentView, children: map<uint64, ChildView>)

  // ----- validation -----

  predicate Uint256(n: Num) {
    n.Num? && IsUint256(n.v)
  }

  function EpochIntegers(e: Epoch<Num>): seq<Num> {
    [e.totalDepositAmount, e.totalShareBurnAmount, e.totalWithdrawClaimAmount, e.remainingDepositClaimAmount,
     e.remainingShareMintAmount, e.remainingShareBurnAmount, e.remainingWithdrawClaimAmount, e.openedAtTimestamp]
  }

  predicate ValidEpoch(e: Epoch<Num>) {
    && Uint256(e.totalDepositAmount) && Uint256(e.totalShareBurnAmount) && Uint256(e.totalWithdrawClaimAmount)
    && Uint256(e.remainingDepositClaimAmount) && Uint256(e.remainingShareMintAmount)
    && Uint256(e.remainingShareBurnAmount) && Uint256(e.remainingWithdrawClaimAmount) && Uint256(e.openedAtTimestamp)
    && e.status <= EPOCH_CLAIMABLE
  }

  predicate ValidParent(p: ParentView) {
    && Uint256(p.currentEpochNonce) && p.currentEpochNonce.v != 0
    && Uint256(p.rebalance.nonce) && p.rebalance.nonce.v != 0
    && Uint256(p.rebalance.lastRebalanceCompletedTimestamp)
    && p.rebalance.state <= REBALANCING && p.recoveryMode <= MAX_RECOVERY_MODE
    && Uint256(p.totalShares) && Uint256(p.tvl)
    && ValidEpoch(p.currentEpoch) && ValidEpoch(p.previousEpoch)
  }

  predicate ValidChild(c: ChildView) {
    && Uint256(c.lastHandledEpochNonce) && Uint256(c.lastHandledRebalanceNonce) && Uint256(c.tvl)
    && c.recoveryMode <= MAX_RECOVERY_MODE
  }

  predicate ValidSnapshot(evms: seq<EvmConfig>, s: Snapshot) {
    && s.observedAt >= 0
    && ValidParent(s.parent)
    && forall e :: e in evms && !e.isParent ==> e.chainSelector in s.children && ValidChild(s.children[e.chainSelector])
  }

  method EpochsAreValid(epochs: seq<Epoch<Num>>) returns (ok: bool)
    ensures ok <==> forall e :: e in epochs ==> ValidEpoch(e)
  {
    for i := 0 to |epochs|
      invariant forall k :: 0 <= k < i ==> ValidEpoch(epochs[k])
    {
      var values := EpochIntegers(epochs[i]);
      for j := 0 to |values|
        invariant forall k :: 0 <= k < j ==> Uint256(values[k])
      {
        if !Uint256(values[j]) {
          assert !ValidEpoch(epochs[i]);
          return false;
        }
      }
      assert Uint256(values[0]) && Uint256(values[1]) && Uint256(values[2]) && Uint256(values[3])
             && Uint256(values[4]) && Uint256(values[5]) && Uint256(values[6]) && Uint256(values[7]);
      if epochs[i].status > EPOCH_CLAIMABLE {
        return false;
      }
    }
    return true;
  }

  /** The checks of Snapshot.Validate in its order, the nil snapshot first. */
  method Validate(snapshot: Option<Snapshot>, evms: seq<EvmConfig>) returns (ok: bool)
    ensures ok <==> snapshot.Some? && ValidSnapshot(evms, snapshot.value)
  {
    if snapshot.None? || snapshot.value.observedAt < 0 {
      return false;
    }
    var s := snapshot.value;
    var p := s.parent;
    if !Uint256(p.currentEpochNonce) || p.currentEpochNonce.v == 0 {
      return false;
    }
    if !Uint256(p.rebalance.nonce) || p.rebalance.nonce.v == 0 || !Uint256(p.rebalance.lastRebalanceCompletedTimestamp)
       || p.rebalance.state > REBALANCING || p.recoveryMode > MAX_RECOVERY_MODE {
      return false;
    }
    if !Uint256(p.totalShares) || !Uint256(p.tvl) {
      return false;
    }
    var epochs := [p.currentEpoch, p.previousEpoch];
    ok := EpochsAreValid(epochs);
    assert epochs[0] in epochs && epochs[1] in epochs;
    if !ok {
      return;
    }
    for i := 0 to |evms|
      invariant forall k :: 0 <= k < i && !evms[k].isParent ==>
                  evms[k].chainSelector in s.children && ValidChild(s.children[evms[k].chainSelector])
    {
      if !evms[i].isParent {
        if evms[i].chainSelector !in s.children || !ValidChild(s.children[evms[i].chainSelector]) {
          assert evms[i] in evms;
          return false;
        }
      }
    }
    return true;
  }

  const UNREAD_EPOCH: Epoch<Num> := Epoch(Nil, Nil, Nil, Nil, Nil, Nil, Nil, Nil, EPOCH_NONE)
  const UNREAD_PARENT := ParentView(false, 0, Nil, UNREAD_EPOCH, UNREAD_EPOCH,
                                    Rebalance(Nil, REBALANCE_NONE, Strategy(0, 0), Strategy(0, 0), Nil), Nil, Nil)

  /** Whether the vault of one chain answers. */
  predicate Answers(e: EvmConfig, readParent: uint64 -> Option<ParentView>, readChild: uint64 -> Option<ChildView>) {
    if e.isParent then readParent(e.chainSelector).Some? else readChild(e.chainSelector).Some?
  }

  predicate AllAnswer(evms: seq<EvmConfig>, readParent: uint64 -> Option<ParentView>, readChild: uint64 -> Option<ChildView>) {
    forall e :: e in evms ==> Answers(e, readParent, readChild)
  }

  /** The record that reading the chains in order leaves: the last parent's, or the zero value without one. */
  function ParentRead(evms: seq<EvmConfig>, readParent: uint64 -> Option<ParentView>): ParentView {
    if evms == [] then UNREAD_PARENT
    else
      var last := evms[|evms| - 1];
      if last.isParent && readParent(last.chainSelector).Some? then readParent(last.chainSelector).value
      else ParentRead(evms[..|evms| - 1], readParent)
  }

  function ChildReads(evms: seq<EvmConfig>, readChild: uint64 -> Option<ChildView>): map<uint64, ChildView> {
    if evms == [] then map[]
    else
      var last := evms[|evms| - 1];
      var front := ChildReads(evms[..|evms| - 1], readChild);
      if !last.isParent && readChild(last.chainSelector).Some?
      then front[last.chainSelector := readChild(last.chainSelector).value] else front
  }

  /** What one round of reads amounts to: nothing before the epoch of the clock, when a vault does not
      answer, or when what was read is not valid. */
  function SnapshotOf(evms: seq<EvmConfig>, now: int64, readParent: uint64 -> Option<ParentView>,
                      readChild: uint64 -> Option<ChildView>): (r: Option<Snapshot>)
    ensures r.Some? ==> ValidSnapshot(evms, r.value)
  {
    var s := Snapshot(now, ParentRead(evms, readParent), ChildReads(evms, readChild));
    if now >= 0 && AllAnswer(evms, readParent, readChild) && ValidSnapshot(evms, s) then Some(s) else None
  }

  /** Every configured chain is read in turn, one failing read fails the whole, and the reads are validated. */
  method ReadSnapshot(evms: seq<EvmConfig>, now: int64, readParent: uint64 -> Option<ParentView>,
                      readChild: uint64 -> Option<ChildView>)
    returns (snapshot: Option<Snapshot>)
    ensures snapshot == SnapshotOf(evms, now, readParent, readChild)
  {
    if now < 0 {
      return None;
    }
    var parent, children: map<uint64, ChildView> := UNREAD_PARENT, map[];
    for i := 0 to |evms|
      invariant forall k :: 0 <= k < i ==> Answers(evms[k], readParent, readChild)
      invariant parent == ParentRead(evms[..i], readParent) && children == ChildReads(evms[..i], readChild)
    {
      var e := evms[i];
      assert evms[..i + 1][..i] == evms[..i];
      if e.isParent {
        var state := readParent(e.chainSelector);
        if state.None? {
          assert !Answers(evms[i], readParent, readChild);
          return None;
        }
        parent := state.value;
      } else {
        var state := readChild(e.chainSelector);
        if state.None? {
          assert !Answers(evms[i], readParent, readChild);
          return None;
        }
        children := children[e.chainSelector := state.value];
      }
    }
    assert evms[..|evms|] == evms;
    snapshot := Some(Snapshot(now, parent, children));
    var ok := Validate(snapshot, evms);
    if !ok {
      return None;
    }
  }

  /** The snapshot was taken at `now` and holds exactly the parent's read and every child's. */
  ghost predicate HoldsReads(evms: seq<EvmConfig>, now: int64, readParent: uint64 -> Option<ParentView>,
                             readChild: uint64 -> Option<ChildView>, s: Snapshot)
  {
    && s.observedAt == now
    && (forall e :: e in evms && e.isParent ==> readParent(e.chainSelector) == Some(s.parent))
    && s.children.Keys == (set e | e in evms && !e.isParent :: e.chainSelector)
    && forall c :: c in s.children ==> readChild(c) == Some(s.children[c])
  }

  lemma {:induction false} ChildReadsHold(evms: seq<EvmConfig>, readParent: uint64 -> Option<ParentView>,
                                          readChild: uint64 -> Option<ChildView>)
    requires AllAnswer(evms, readParent, readChild)
    ensures ChildReads(evms, readChild).Keys == (set e | e in evms && !e.isParent :: e.chainSelector)
    ensures forall c :: c in ChildReads(evms, readChild) ==> readChild(c) == Some(ChildReads(evms, readChild)[c])
  {
    if evms != [] {
      var front, last := evms[..|evms| - 1], evms[|evms| - 1];
      assert evms == front + [last] && Answers(last, readParent, readChild);
      ChildReadsHold(front, readParent, readChild);
    }
  }

  lemma {:induction false} ParentReadHolds(evms: seq<EvmConfig>, readParent: uint64 -> Option<ParentView>, p: nat)
    requires OnlyParent(evms, p)
    ensures readParent(evms[p].chainSelector).Some? ==>
              readParent(evms[p].chainSelector) == Some(ParentRead(evms, readParent))
  {
    if p != |evms| - 1 {
      assert OnlyParent(evms[..|evms| - 1], p);
      ParentReadHolds(evms[..|evms| - 1], readParent, p);
    }
  }

  /** On validated chains there is exactly one snapshot a round of reads can give, and it is given exactly
      when the clock is not negative, every vault answers, and the reads are valid. */
  lemma SnapshotIsExact(text: Text, evms: seq<EvmConfig>, now: int64, readParent: uint64 -> Option<ParentView>,
                        readChild: uint64 -> Option<ChildView>, s: Snapshot)
    requires ValidEvms(text, evms)
    ensures SnapshotOf(evms, now, readParent, readChild) == Some(s) <==>
              && now >= 0 && AllAnswer(evms, readParent, readChild)
              && HoldsReads(evms, now, readParent, readChild, s) && ValidSnapshot(evms, s)
  {
    if AllAnswer(evms, readParent, readChild) {
      var p :| OnlyParent(evms, p);
      assert Answers(evms[p], readParent, readChild);
      ParentReadHolds(evms, readParent, p);
      ChildReadsHold(evms, readParent, readChild);
      var taken := Snapshot(now, ParentRead(evms, readParent), ChildReads(evms, readChild));
      assert HoldsReads(evms, now, readParent, readChild, taken);
      if HoldsReads(evms, now, readParent, readChild, s) {
        assert evms[p] in evms;
        assert forall c :: c in s.children <==> c in s.children.Keys;
        assert s.children == taken.children;
      }
    }
  }

  // ----- what handlers ask of a snapshot -----

  predicate Blocks(s: Snapshot, e: EvmConfig) {
    if e.isParent then s.parent.paused || s.parent.recoveryMode != 0
    else e.chainSelector in s.children
         && (s.children[e.chainSelector].paused || s.children[e.chainSelector].recoveryMode != 0)
  }

  /** The index of the first configured chain whose vault is paused or in recovery. */
  method BlockedBy(s: Snapshot, evms: seq<EvmConfig>) returns (blocker: Option<nat>)
    ensures blocker.None? ==> forall e :: e in evms ==> !Blocks(s, e)
    ensures blocker.Some? ==> blocker.value < |evms| && Blocks(s, evms[blocker.value])
                              && forall k :: 0 <= k < blocker.value ==> !Blocks(s, evms[k])
  {
    for i := 0 to |evms|
      invariant forall k :: 0 <= k < i ==> !Blocks(s, evms[k])
    {
      var paused, recovery := s.parent.paused, s.parent.recoveryMode;
      if !evms[i].isParent {
        if evms[i].chainSelector in s.children {
          var c := s.children[evms[i].chainSelector];
          paused, recovery := c.paused, c.recoveryMode;
        } else {
          paused, recovery := false, 0;
        }
      }
      if paused || recovery != 0 {
        return Some(i);
      }
    }
    return None;
  }

  predicate Operational(s: Snapshot, evms: seq<EvmConfig>) {
    forall e :: e in evms ==> !Blocks(s, e)
  }

  function ActiveTvl(s: Snapshot, parentChain: uint64): Option<Num> {
    var chain := s.parent.rebalance.activeStrategy.chainSelector;
    if chain == parentChain then Some(s.parent.tvl)
    else if chain in s.children then Some(s.children[chain].tvl)
    else None
  }

  predicate PeriodElapsed(openedAt: Num, now: int64, period: nat) {
    Uint256(openedAt) && now >= 0 && now >= openedAt.v + period
  }

  /** A finalized log as its subscription hands it over. The topics are already read: none, an unknown
      signature, a known signature whose fields do not decode, or a decoded event. */
  datatype Log = Log(address: seq<uint8>, event: Event)

  datatype Event =
    | NoSignature
    | OtherSignature
    | Undecodable(signature: Signature)
    | RebalanceInitiated(rebalanceNonce: uint256, newStrategy: Strategy)
    | EpochWithdrawExecuting(epochNonce: uint256, amount: uint256)
    | RebalanceDepositSuccess(rebalanceNonce: uint256, amount: uint256)
    | EpochDepositToStrategySuccess(epochNonce: uint256, amount: uint256)

  datatype Signature = SigRebalanceInitiated | SigWithdrawExecuting | SigRebalanceSuccess | SigDepositSuccess

  /** The log came from the configured vault of the expected chain. */
  predicate MatchSource(evms: seq<EvmConfig>, address: seq<uint8>, source: uint64, expected: uint64) {
    var cfg := FindEvmByChainSelector(evms, source);
    cfg.Some? && source == expected && |address| == 20 && address == cfg.value.vaultAddress.bytes
  }

  // ----- reading the contract -----

  function ReadEpoch(e: Epoch<uint256>): Epoch<Num> {
    Epoch(Num(e.totalDepositAmount), Num(e.totalShareBurnAmount), Num(e.totalWithdrawClaimAmount),
          Num(e.remainingDepositClaimAmount), Num(e.remainingShareMintAmount), Num(e.remainingShareBurnAmount),
          Num(e.remainingWithdrawClaimAmount), Num(e.openedAtTimestamp), e.status)
  }

  /** getParentOperationalState. */
  function ReadParent(p: ParentVault.State, paused: bool, recoveryMode: uint8, tvl: uint256): ParentView {
    ParentView(paused, recoveryMode, Num(p.epochNonce), ReadEpoch(p.CurrentEpoch()), ReadEpoch(p.PreviousEpoch()),
               Rebalance(Num(p.rebalance.nonce), p.rebalance.state, p.rebalance.activeStrategy,
                         p.rebalance.pendingStrategy, Num(p.rebalance.lastRebalanceCompletedTimestamp)),
               Num(p.totalShares), Num(tvl))
  }
}
