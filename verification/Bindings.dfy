/** The vault structs as both sides see them. The integer representation is a parameter: uint256
    words on chain, heap integers in the accounting code, nil-able integers in a snapshot. */
module Bindings {
  import opened Words

  type ProtocolId = uint256

  const REBALANCE_NONE: uint8 := 0
  const REBALANCING: uint8 := 1

  const EPOCH_NONE: uint8 := 0
  const EPOCH_OPEN: uint8 := 1
  const EPOCH_EXECUTING: uint8 := 2
  const EPOCH_CLAIMABLE: uint8 := 3

  datatype Strategy = Strategy(protocolId: ProtocolId, chainSelector: uint64)

  datatype Epoch<+T> = Epoch(
    totalDepositAmount: T,
    totalShareBurnAmount: T,
    totalWithdrawClaimAmount: T,
    remainingDepositClaimAmount: T,
    remainingShareMintAmount: T,
    remainingShareBurnAmount: T,
    remainingWithdrawClaimAmount: T,
    openedAtTimestamp: T,
    status: uint8)

  datatype Rebalance<+T> = Rebalance(
    nonce: T,
    state: uint8,
    activeStrategy: Strategy,
    pendingStrategy: Strategy,
    lastRebalanceCompletedTimestamp: T)
}
