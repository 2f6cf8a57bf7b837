# Yieldcoin: settlement, selection and protocol runs

A Dafny model of the Yieldcoin off-chain workflow and of the vaults it settles with. Users deposit into and
withdraw from epochs of a parent vault; a workflow closes epochs, reconciles cross-chain deliveries and moves
the strategy between chains, by signed reports that it decides on from one read of all vaults, from schedules
and from finalized logs. The model covers:

- **Epoch settlement** (`EpochAccounting`, `ParentVault`, `SettlementTheorems`): the off-chain accounting on heap
  integers, operation by operation in place, proved to return what the vault contract's checked uint256
  arithmetic returns, for every input and with the same reason for every refusal. On that shared function:
  no dilution with the exact rounding dust, solvency although no burn is bounded by the supply, the minimum
  deposit, the algebra of short deliveries, and the price over whole runs of epochs.
- **Pool selection** (`JsonStream`, `PoolRanking`, `PoolSelection`, `RelayResponse`): the streaming parse over a
  decoder with a depth-limited skip, the in-place stable sort, the allow-lists and the selector maps, proved
  equal to a choice on the document's tree and independent of every order the code leaves open.
- **Configuration and snapshots** (`Config`, `Snapshot`): the validating scans accept exactly the valid inputs.
- **Handlers and one execution** (`Handlers`, `Workflow`, `Preflight`, `RebalanceTheorems`, `Reports`): the six
  guarded handlers, their dispatch, the byte layout of reports and their hand-over. Their guards are compared
  with the vault's own checks, shown to exclude each other, and rebalancing is shown to pay and to settle.
- **The protocol** (`Protocol`, `ProtocolSafety`, `ProtocolTheorems`, `ProtocolProgress`, `EpochLifecycle`): runs of the parent vault,
  its children, the workflow and the network. An execution may read any past state of the parent, any values
  for the children, and any log again; a report may arrive any number of times, in any order and at any time.

## How it is modelled

- The contracts of this repository are the reference for the vaults: `ParentVault` follows
  `ParentVaultEpochLib`, `ParentVaultRebalanceLib`, `ParentVaultCcipLib` and `ParentVaultFeesLib` in checked
  arithmetic. A close is local when the active strategy is on the parent's chain; the minimum asset amount is
  one whole asset unit; the configured decimals are the asset's.
- `EpochAccounting` splits each of the two accounting functions into the methods of its consecutive parts. No
  method there has a `modifies` clause and all results are fresh: inputs never change and nothing returned
  aliases an input. Go's width tests by bit length are proved to be the interval tests.
- The handlers are functions on values, as their guards are pure; `Workflow` holds the imperative versions that
  run the accounting on heap integers, parse the response, and hand over at most one report.
- APYs are reals. Keccak, trimming, lower-casing and case folding are function parameters about which
  nothing is assumed. Addresses are twenty bytes with a flag for whether their text was a hex address.
- A JSON body is a token stream; `Serialize` gives the stream of a document. `Decode` reads one whole value.
- Pauses, roles and recovery modes only forbid steps on chain, so runs without those guards include all others.
- A run starts after the first strategy was set on the parent's chain. Requests, cancellations and claims are
  any change of the totals or of the remaining amounts that they may touch. CCIP deliveries appear as steps of
  their own: a child's nonces may rise at any time, a withdrawal may arrive with any amount, and a rebalance
  that ends on the parent may activate any strategy.
- In runs, a log that carries the parent vault's address on its chain was emitted by it. Logs of child vaults
  may say anything.

Where code and documentation disagree, the model follows the code. `docs/security/KNOWN_ISSUES.md:1333` says the
workflow submits a rebalance target only after matching it against the pending strategy; the handler does so only
when the snapshot shows the rebalance in progress (`Preflight.EarlyReadMatchesNoTarget`). Over runs the executed
target is still always the initiated one (`ProtocolTheorems.OneMovePerRebalance`). The guards alone leave both completion
reports open on exactly the snapshots of `Preflight.CompletionsCoexistExactlyWhen`; what keeps them apart in runs is
the invariant of `docs/security/INVARIANTS.md:255` (`ProtocolTheorems.CompletionsExclude`). An executing epoch need not
finish: `docs/security/KNOWN_ISSUES.md:1198-1206` describes the deliveries the vault refuses, and
`ProtocolProgress.WhichDeliveriesFinish` gives exactly the others.

`dafny verify dfyconfig.toml` checks the whole project.

## Model

| member | source | states |
|---|---|---|
| Words.AssetPrecisionIsUint256 | cre/workflow/internal/epoch/accounting.go:26-32 | Ten to the power of every admitted number of decimals is a nonzero uint256, so the precision needs no check of its own. |
| Words.BitLenIsWordWidth | cre/workflow/internal/onchain/state.go:155 | The sign and bit-length tests hold exactly for uint256 values, and a length above 255 exactly outside (-2^255, 2^255). |
| EpochAccounting.WidthIsInterval | cre/workflow/internal/onchain/state.go:155 | The validity test of a possibly nil heap integer means non-nil and within uint256. |
| EpochAccounting.MulDivDownBig | cre/workflow/internal/epoch/accounting.go:127-137 | The in-place product and truncating quotient give the contract's full-precision floor division on uint256 inputs, with a division by zero and an overflow of the result as the only failures. |
| EpochAccounting.AllocateBig | cre/workflow/internal/epoch/accounting.go:33-60 | Pricing burns and deposits agrees with the contract in value and in the reason for refusal, and returns fresh distinct integers. |
| EpochAccounting.CheckMinimumDeposit | cre/workflow/internal/epoch/accounting.go:67-75 | Refuses by overflow or by worthlessness exactly as the contract's checked multiplication and comparison do. |
| EpochAccounting.CheckRemoteWithdraw | cre/workflow/internal/epoch/accounting.go:76-81 | Refuses exactly the remote net withdrawals that are positive but below one asset unit. |
| EpochAccounting.UpdateTotalShares | cre/workflow/internal/epoch/accounting.go:82-89 | The supply becomes old plus minted minus burned, refused exactly on overflow of the sum or when the burn exceeds it. |
| EpochAccounting.SettleAllocatedBig | cre/workflow/internal/epoch/accounting.go:62-90 | The record filled in step by step holds the contract's settlement, and only with the integers it was given or fresh ones. |
| EpochAccounting.CalculateEpochClose | cre/workflow/internal/epoch/accounting.go:20-91 | For all inputs, nil and out-of-range ones included, accepts exactly the closes the contract's settlement accepts, with the same four values or the same reason; changes no input and aliases none. |
| EpochAccounting.ScaleAllocationBig | cre/workflow/internal/epoch/accounting.go:113-124 | Scaling in place without a width check still gives the contract's full-precision result, because the quotient stays below the mint. |
| EpochAccounting.ScaledMintFits | cre/workflow/internal/epoch/accounting.go:113-114 | A mint scaled by a ratio below one stays between zero and itself. |
| EpochAccounting.ReconcileDelivery | cre/workflow/internal/epoch/accounting.go:101-124 | The comparison with the expected delivery takes the contract's branch and returns a fresh allocation. |
| EpochAccounting.ReconcileEpochDeposit | cre/workflow/internal/epoch/accounting.go:93-125 | For all inputs, accepts exactly the deliveries the contract's reconciliation accepts, with the same allocation or reason. |
| EpochAccounting.AllUint256 | cre/workflow/internal/epoch/accounting.go:96-100 | The input loop passes exactly when every integer is a valid uint256. |
| SettlementTheorems.MulDivDownIsExact | evm/src/libraries/vaults/ParentVaultMathLib.sol:16-18 | Full-precision division returns the one quotient there is, refuses a zero denominator, and otherwise refuses exactly the quotients that leave uint256. |
| SettlementTheorems.SettleFacts | evm/src/libraries/vaults/ParentVaultEpochLib.sol:189-303 | Every accepted close has a nonempty epoch, an int256 net flow, the supply equation, both floor bounds, and no remote withdrawal below one unit. |
| SettlementTheorems.CloseDust | cre/workflow/internal/epoch/accounting.go:47-51 | Backing and supply after a close, cross-multiplied with the price before it, differ by exactly the two floor remainders, which lie between zero and tvl + supply - 2. |
| SettlementTheorems.CloseIsFairAndSolvent | cre/workflow/internal/epoch/accounting.go:47-89 | No close dilutes the holders who stay, and the withdrawal never exceeds what the vault holds plus the deposits, with no bound of the burn by the supply assumed. |
| SettlementTheorems.BurnMayExceedSupply | cre/workflow/internal/epoch/accounting.go:82-89 | A close that burns more than the old supply is accepted when the same epoch mints enough. |
| SettlementTheorems.MinimumDepositMeansAShare | cre/workflow/internal/epoch/accounting.go:67-75 | Acceptance of a deposit gives every part of at least one asset unit a share; refusal for worthlessness means a part of exactly one unit would get none. |
| SettlementTheorems.BootstrapMinimum | cre/workflow/internal/epoch/accounting.go:52-75 | With no shares outstanding the worthlessness refusal happens exactly for more than eighteen decimals and a deposit below 10^(decimals - 18). |
| SettlementTheorems.BootstrapRejects | cre/workflow/internal/epoch/accounting.go:52-75 | The same refusal in terms of the minted quotient, for any precision. |
| SettlementTheorems.ReconcileAccepts | cre/workflow/internal/epoch/accounting.go:101-124 | Exactly which deliveries are accepted; the allocation left is the mint times the arrived deposits over all deposits, within one share below the exact ratio. |
| SettlementTheorems.ReconcileIsMonotone | cre/workflow/internal/epoch/accounting.go:105-124 | Acceptance is upward closed up to full delivery, the allocation grows with the delivery, and full delivery leaves it whole. |
| SettlementTheorems.ShortDeliveryAfterClose | cre/workflow/internal/epoch/accounting.go:111-123 | After any close, a short delivery is never refused for the share supply; it is accepted, with the floor of the scaled mint, exactly when that is not zero. |
| SettlementTheorems.ScaledMintCoversBurn | cre/workflow/internal/epoch/accounting.go:117-123 | The reason: through all three floors the burn exceeds the scaled mint by at most one share. |
| SettlementTheorems.DustDeliveryIsRefused | docs/security/KNOWN_ISSUES.md:1198-1206 | A close after which a delivery of less than one asset unit is refused, so that the epoch stays executing. |
| SettlementTheorems.OneUnitSurvivesReconciliation | docs/security/KNOWN_ISSUES.md:1206 | Every short delivery that leaves at least one asset unit in the epoch is accepted. |
| SettlementTheorems.DeliveryIsFair | cre/workflow/internal/epoch/accounting.go:93-125 | A close followed by any accepted short delivery dilutes no holder and leaves a nonnegative supply and backing. |
| SettlementTheorems.ShortMintBound | cre/workflow/internal/epoch/accounting.go:113-116 | The two successive floors still price the scaled mint at no more than the deposits that arrived. |
| SettlementTheorems.PriceNeverFalls | cre/workflow/internal/epoch/accounting.go:23-125 | Over any run of settled epochs that keep shares outstanding and lose nothing in between, the cross-multiplied price never falls from any close to any later one. |
| JsonStream.SkipUndoesSerialize | cre/workflow/internal/offchain/defillama.go:322-364 | Skipping consumes exactly the tokens of one value, whatever follows, and fails exactly when a sub-value lies deeper than the limit. |
| JsonStream.ParseUndoesSerialize | cre/workflow/internal/offchain/defillama.go:245-251 | Reading one whole element returns exactly the value that was serialised, and what follows it. |
| JsonStream.Decoder.constructor | cre/workflow/internal/offchain/defillama.go:197 | A new decoder stands before all tokens. |
| JsonStream.Decoder.Next | cre/workflow/internal/offchain/defillama.go:199-202 | Takes one token off the stream, or fails at its end. |
| JsonStream.Decoder.Decode | cre/workflow/internal/offchain/defillama.go:248-251 | Takes one whole value off the stream, or fails. |
| JsonStream.Decoder.SkipValue | cre/workflow/internal/offchain/defillama.go:326-364 | The recursive skip leaves exactly what the skipping function leaves, and terminates on every stream. |
| JsonStream.Decoder.SkipRest | cre/workflow/internal/offchain/defillama.go:342-360 | The two loops over the inside of an object or an array, in mutual recursion with the skip. |
| PoolRanking.BeforeIsTotal | cre/workflow/internal/offchain/defillama.go:303-319 | The five-key comparison is asymmetric and leaves no ties between different pools. |
| PoolRanking.BeforeIsTransitive | cre/workflow/internal/offchain/defillama.go:303-319 | The five-key comparison is transitive. |
| PoolRanking.RankedIsUnique | cre/workflow/internal/offchain/defillama.go:302-320 | Two ranked arrangements of the same pools are the same sequence. |
| PoolRanking.SortedRanks | cre/workflow/internal/offchain/defillama.go:302-320 | Sorting arranges exactly the given pools by rank. |
| PoolRanking.InsertAt | cre/workflow/internal/offchain/defillama.go:302-320 | One insertion by exchanges in the array moves a pool behind every pool that does not rank after it. |
| PoolRanking.SortPools | cre/workflow/internal/offchain/defillama.go:302-320 | The in-place stable sort leaves the sorted sequence of the former contents. |
| PoolSelection.NewPolicy | cre/workflow/internal/rebalance/handlers.go:156-171 | The policy holds the configured lists and one entry per chain, in order. |
| PoolSelection.ChainNamesAt | cre/workflow/internal/rebalance/handlers.go:157-163 | Entry i carries the selector and the name of chain i. |
| PoolSelection.BuildAllowedValues | cre/workflow/internal/offchain/defillama.go:406-412 | The loop fills a map from every canonical form of a value, and from nothing else, to a configured value of that form. |
| PoolSelection.DistinctValueIsFound | cre/workflow/internal/helper/config.go:145-163 | With canonically distinct values each is found again by its own form. |
| PoolSelection.BuildAllowedChains | cre/workflow/internal/offchain/defillama.go:395-404 | The same over the chains that have a name. |
| PoolSelection.BuildSelectorToName | cre/workflow/internal/offchain/defillama.go:384-393 | The loop fills the map from selectors to nonempty names. |
| PoolSelection.SelectorToNameIsExact | cre/workflow/internal/offchain/defillama.go:384-393 | With distinct selectors the map holds exactly the named chains. |
| PoolSelection.PoolToChainSelector | cre/workflow/internal/offchain/defillama.go:374-382 | The search in any iteration order finds a chain with that canonical name or reports that there is none; with distinct chains the answer does not depend on the order. |
| PoolSelection.MapSearchIsUnique | cre/workflow/internal/offchain/defillama.go:374-382 | Any answer such a search may give is the selector of the first chain the name denotes. |
| PoolSelection.ValidConfigHasDistinctChains | cre/workflow/internal/helper/config.go:62-94 | Configuration validation is what makes that search deterministic. |
| PoolSelection.ChainNameRoundTrip | cre/workflow/internal/offchain/defillama.go:374-393 | In a valid configuration a selector leads to its chain's name and a nonempty name back to its selector and no other. |
| PoolSelection.AcceptedStandsForElement | cre/workflow/internal/offchain/defillama.go:252-277 | What an element yields is approved in every value and carries the element's own values up to canonical form, with its APY. |
| PoolSelection.AcceptIsExact | cre/workflow/internal/offchain/defillama.go:252-277 | With distinct lists an element yields exactly the approved pool with its values, if there is one. |
| PoolSelection.ValidPolicyIsDistinct | cre/workflow/internal/helper/config.go:84-90 | A valid configuration has distinct lists and chain names. |
| PoolSelection.CandidatesAreApproved | cre/workflow/internal/offchain/defillama.go:245-278 | Every candidate is approved, spelled as configured, and stands for an element of the response. |
| PoolSelection.CandidatesOfPermutation | cre/workflow/internal/offchain/defillama.go:245-278 | Permuted elements yield the same candidates. |
| PoolSelection.RejectedYieldNothing | cre/workflow/internal/offchain/defillama.go:252-269 | Malformed, incomplete or unapproved elements, which are those no approved pool stands for, yield no candidate. |
| PoolSelection.ActiveStrategyIsRecognised | cre/workflow/internal/offchain/defillama.go:287-293 | The comparison by chain name and protocol recognises exactly the pools that stand for the active strategy. |
| PoolSelection.FirstOnStrategyRanks | cre/workflow/internal/offchain/defillama.go:287-293 | The first match of the search is the highest-ranked pool of the strategy, and none means there is none. |
| PoolSelection.ChooseIsTopRanked | cre/workflow/internal/offchain/defillama.go:280-295 | Best and current pool are the top-ranked candidates, of all and of the active strategy. |
| PoolSelection.ChooseIgnoresOrder | cre/workflow/internal/offchain/defillama.go:280-295 | The choice depends only on which candidates there are. |
| RelayResponse.SkipToData | cre/workflow/internal/offchain/defillama.go:207-229 | The loop over the members stops behind the first data key, having skipped every member before it. |
| RelayResponse.CollectCandidates | cre/workflow/internal/offchain/defillama.go:239-278 | The loop over the elements yields the candidates of exactly the elements read, or fails on a structural error. |
| RelayResponse.SearchCurrent | cre/workflow/internal/offchain/defillama.go:287-293 | The search loop returns the first pool on the strategy. |
| RelayResponse.SelectPools | cre/workflow/internal/offchain/defillama.go:280-295 | Sorting in place and picking gives the choice. |
| RelayResponse.ParsePools | cre/workflow/internal/offchain/defillama.go:195-296 | The streaming parse returns the choice among the candidates of the streamed data elements, or nothing exactly when the stream has none. |
| RelayResponse.StreamingIsExact | cre/workflow/internal/offchain/defillama.go:196-251 | On a whole document the streamed elements are those of the first data member of the tree, and the parse fails exactly without such an array or behind a member nested too deeply. |
| RelayResponse.NothingAfterMatters | cre/workflow/internal/offchain/defillama.go:207-278 | Behind any skippable members, the streamed elements do not depend on anything after the last one read. |
| RelayResponse.TruncationIsAccepted | cre/workflow/internal/offchain/defillama.go:245-278 | So a response cut off behind any element streams as if it ended there, although it is no JSON value. |
| RelayResponse.ValidateFreshness | cre/workflow/internal/offchain/defillama.go:174-193 | Passes exactly for one JSON document whose refresh time is at most fifteen minutes old and not in the future; the subtraction stays in 64 bits. |
| RelayResponse.FetchAndParseBody | cre/workflow/internal/offchain/defillama.go:168-171 | Checking and then streaming the body returns what the document's tree says. |
| RelayResponse.SelectionIgnoresOrder | cre/workflow/internal/offchain/defillama.go:114 | Two documents whose data elements agree up to order and rejected elements select the same pools, as identical aggregation over the nodes needs. |
| Config.ValidateUniqueNonEmpty | cre/workflow/internal/helper/config.go:145-163 | The seen-set scan accepts exactly the nonempty lists of nonblank, canonically distinct values, and names a real fault otherwise. |
| Config.ValidateDefiLlama | cre/workflow/internal/helper/config.go:124-143 | Accepts exactly valid selection policies. |
| Config.CheckDestination | cre/workflow/internal/helper/config.go:72-83 | The address and gas checks of one chain. |
| Config.ScanSelector | cre/workflow/internal/helper/config.go:62-70 | One step of the scan keeps the selectors distinct and the seen-set exact. |
| Config.ScanName | cre/workflow/internal/helper/config.go:84-90 | One step of the scan keeps the canonical names distinct and the seen-set exact. |
| Config.ScanEvm | cre/workflow/internal/helper/config.go:62-95 | One whole step of the scan in the order of its checks. |
| Config.ValidateEvms | cre/workflow/internal/helper/config.go:58-99 | The scan with its parent count accepts exactly valid chain lists. |
| Config.CountingParents | cre/workflow/internal/helper/config.go:92-99 | A count of one means exactly one parent. |
| Config.ValidateConfig | cre/workflow/internal/helper/config.go:50-112 | Accepts exactly the valid configurations and names a real fault of every other one. |
| Config.FindEvmByChainSelector | cre/workflow/internal/helper/config.go:41-48 | Finds a chain with the selector, or none exists. |
| Config.FindParent | cre/workflow/internal/helper/config.go:169-178 | Finds a parent chain, or none exists. |
| Config.LookupsAreUnique | cre/workflow/internal/helper/config.go:41-48 | In a valid configuration both lookups are unambiguous and only the parent has the parent's selector. |
| Snapshot.EpochsAreValid | cre/workflow/internal/onchain/state.go:93-106 | The nested loop passes exactly when every integer and status of every epoch is valid. |
| Snapshot.Validate | cre/workflow/internal/onchain/state.go:77-118 | Accepts exactly valid snapshots. |
| Snapshot.ReadSnapshot | cre/workflow/internal/onchain/state.go:40-75 | The loop over the chains returns exactly the snapshot that the reads amount to, or nothing exactly when there is none. |
| Snapshot.SnapshotIsExact | cre/workflow/internal/onchain/state.go:40-75 | On validated chains a snapshot is given exactly when the clock is not negative, every vault answers, it holds the read of the parent and of every child and nothing else, and it is valid. |
| Snapshot.BlockedBy | cre/workflow/internal/onchain/state.go:120-135 | Reports the first paused or recovering vault, and none only when every configured vault is operational. |
| Workflow.InitWorkflow | cre/workflow/workflow.go:48-135 | Registers the two schedules and one log subscription per vault, within the quota, for exactly the valid configurations. |
| Workflow.PreflightClose | cre/workflow/internal/epoch/handlers.go:79-81 | The heap accounting of a close decides as the vault's settlement does on the snapshot's values. |
| Workflow.PreflightDelivery | cre/workflow/internal/epoch/handlers.go:207-209 | The heap accounting of a delivery decides as the vault's reconciliation does. |
| Workflow.OnEpochCronTrigger | cre/workflow/internal/epoch/handlers.go:45-96 | The guard sequence on heap integers decides what the handler function decides. |
| Workflow.OnEpochDepositToStrategySuccess | cre/workflow/internal/epoch/handlers.go:183-230 | The same for a reported delivery. |
| Workflow.FetchAndSelectPools | cre/workflow/internal/offchain/defillama.go:95-121 | Names the active chain by the map and selects from the response body. |
| Workflow.OnRebalanceCronTrigger | cre/workflow/internal/rebalance/handlers.go:55-154 | Guards, parse and selection in sequence decide what the handler function decides on the selection. |
| Workflow.Dispatch | cre/workflow/workflow.go:97-121 | The operational guard and the dispatch by trigger and signature. |
| Workflow.Run | cre/workflow/workflow.go:137-156 | One execution ends exactly as the decision on the snapshot of its reads says, or as a failed read exactly when there is no snapshot, and hands over that one report or nothing. |
| Preflight.CloseMirrorsVault | cre/workflow/internal/epoch/handlers.go:61-92 | On a current read a close is submitted exactly when the vault would accept it at the observation time, up to two overflows only the vault can meet. |
| Preflight.DeliveryMirrorsVault | cre/workflow/internal/epoch/handlers.go:200-223 | A delivery reported by the active child is submitted exactly when the vault would accept it. |
| Preflight.InitiationMirrorsVault | cre/workflow/internal/rebalance/handlers.go:70-146 | A submitted initiation is accepted by the vault if it supports the strategy and its own arithmetic does not overflow. |
| Preflight.CompletionMirrorsVault | cre/workflow/internal/rebalance/handlers.go:279-296 | A completion is submitted exactly when the vault would accept it or fail in its fee arithmetic alone. |
| Preflight.CloseIsJustified | cre/workflow/internal/epoch/handlers.go:61-92 | A close is decided on only with nothing in progress, for the current open epoch, to the parent. |
| Preflight.WithdrawalIsJustified | cre/workflow/internal/epoch/handlers.go:120-169 | A withdrawal is decided on only for the executing epoch and exactly the amount it owes, to the configured active child that has not handled it. |
| Preflight.DeliveryIsJustified | cre/workflow/internal/epoch/handlers.go:200-223 | A delivery is reported only for the executing epoch, from the active child, at most what was sent. |
| Preflight.InitiationIsJustified | cre/workflow/internal/rebalance/handlers.go:70-146 | An initiation is decided on only with nothing in progress and towards another strategy, to the parent. |
| Preflight.RebalanceIsJustified | cre/workflow/internal/rebalance/handlers.go:199-246 | A rebalance goes to the configured active child under the current nonce, to the pending strategy while one is pending. |
| Preflight.CompletionIsJustified | cre/workflow/internal/rebalance/handlers.go:279-296 | A completion is decided on only while rebalancing to a child, on that child's log, to the parent. |
| Preflight.SubmissionsAreJustified | cre/workflow/workflow.go:97-156 | Every report of every trigger is justified by an operational snapshot and, if a log brought it about, answers a log of the right vault. |
| Preflight.OneSnapshotOneDirection | cre/workflow/internal/epoch/handlers.go:61-209 | Two executions on one snapshot never decide on conflicting calls; withdrawals, pending rebalances and completions agree in full whatever logs caused them. |
| Preflight.RebalanceCompletesExactlyWhen | cre/workflow/internal/rebalance/handlers.go:279-296 | Some trigger completes the rebalance exactly on an operational snapshot that shows one in progress to a configured child. |
| Preflight.DepositCompletesExactlyWhen | cre/workflow/internal/epoch/handlers.go:200-223 | Some trigger completes the deposit exactly on an operational snapshot that shows a net deposit on its way to a configured child. |
| Preflight.CompletionsCoexistExactlyWhen | cre/workflow/internal/rebalance/handlers.go:279-286 | The guards leave both completions open exactly on operational snapshots that show both at once. |
| Preflight.EarlyReadMatchesNoTarget | cre/workflow/internal/rebalance/handlers.go:202-209 | The target is matched with the pending strategy exactly when the snapshot shows the rebalance in progress. |
| Preflight.SchedulesFailOnlyOutside | cre/workflow/internal/epoch/handlers.go:74-77 | On validated inputs a schedule fails only for a failed fetch, a strategy on an unconfigured chain, or a best pool on an unknown one. |
| RebalanceTheorems.ScheduleFailsOnlyUnfetched | cre/workflow/internal/rebalance/handlers.go:90-105 | On what a response really selects, the rebalance schedule fails only for a response that gave nothing; the best pool's chain is always known. |
| Preflight.LogsFailOnlyOutside | cre/workflow/workflow.go:97-121 | On validated inputs a log fails only for the wrong kind of vault, an unreadable event or an unconfigured chain. |
| Preflight.ReportsAreSendable | cre/workflow/internal/onchain/report.go:25-54 | Every report decided on goes to a configured vault and is held back only by its calldata length or its age. |
| RebalanceTheorems.InitiationPays | cre/workflow/internal/rebalance/handlers.go:70-146 | An initiation happens only on a ready snapshot and a fresh paying offer, towards the configured strategy of the top pool, which is not the active one. |
| RebalanceTheorems.PayingOfferIsInitiated | cre/workflow/internal/rebalance/handlers.go:70-146 | Conversely, a ready snapshot and a fresh paying offer always lead to that initiation. |
| RebalanceTheorems.BestBeatsActive | cre/workflow/internal/rebalance/policy.go:12-23 | The top pool of a paying offer yields at least one point more than every pool of the active strategy. |
| RebalanceTheorems.UnchangedOfferSettles | cre/workflow/internal/rebalance/handlers.go:107-128 | While the same candidates are on offer all initiations share one target, and none follows once it is active. |
| RebalanceTheorems.BestOnOffer | cre/workflow/internal/rebalance/handlers.go:100-114 | An initiation aims at the strategy of the first offered pool in order of rank. |
| Reports.FillBytes | cre/workflow/internal/onchain/report.go:36-38 | Writing a number big-endian into part of the buffer leaves the rest. |
| Reports.Copy | cre/workflow/internal/onchain/report.go:37-39 | Copying bytes into part of the buffer leaves the rest. |
| Reports.EncodeReport | cre/workflow/internal/onchain/report.go:25-41 | Refuses exactly the named faults in their order; otherwise the fresh buffer of 64 to 5120 bytes decodes on chain to selector, router, time and calldata. |
| Reports.DecodeUndoesEncode | evm/src/modules/WorkflowRouter.sol:149-163 | The router recovers every field of an encoded report. |
| Reports.EncodeUndoesDecode | evm/src/modules/WorkflowRouter.sol:149-163 | What the router decodes encodes to the same bytes, so no two reports decode alike. |
| Reports.Outbox.Submit | cre/workflow/internal/onchain/report.go:43-77 | Hands over one report or nothing; the age is computed without overflow because negative times were refused before. |
| Reports.SubmittedReportIsForOneRouter | evm/src/modules/WorkflowRouter.sol:149-161 | A submitted report is accepted by exactly the router it names, for exactly thirty minutes from its observation. |
| ProtocolSafety.SubmissionIsTrue | cre/workflow/internal/epoch/handlers.go:120-169 | Whatever an execution decides on a past read and a genuine log agrees with the closes and initiations on chain. |
| ProtocolSafety.StepKeeps | evm/src/vaults/ParentVault.sol:401-590 | Every step of users, workflow, network and children keeps the invariant of the run. |
| ProtocolSafety.DeploymentKeeps | evm/src/vaults/ParentVault.sol:113-130 | The invariant holds of a new vault. |
| ProtocolSafety.RunKeeps | docs/security/INVARIANTS.md:255 | The invariant holds throughout every run; in particular no rebalance is in progress while a net flow is on its way. |
| ProtocolTheorems.OneWithdrawalPerEpoch | evm/src/vaults/ChildVault.sol:243-264 | Across all children an epoch is withdrawn for at most once, on the chain active at its close, for exactly the net flow owed, at least one asset unit. |
| ProtocolTheorems.OneMovePerRebalance | evm/src/vaults/ChildVault.sol:283-298 | Across all children a rebalance is executed at most once, by the child active under its nonce, towards the strategy initiated under it. |
| ProtocolTheorems.EffectSpends | evm/src/vaults/ChildVault.sol:642-660 | A delivery that changes anything makes every report of the same call ineffective. |
| ProtocolTheorems.StepAdvances | docs/security/INVARIANTS.md:301 | No step takes back a close, an initiation, a nonce or a settlement. |
| ProtocolTheorems.OneEffectPerCall | evm/src/modules/WorkflowRouter.sol:132-134 | Of all deliveries of one call in a run, replays and rival reports included, at most one changes anything. |
| ProtocolTheorems.SupplyIsAccountedFor | docs/security/INVARIANTS.md:233 | At every moment the share supply is all finally minted shares, less all burned, plus all fees. |
| ProtocolTheorems.ClosesKeepThePrice | cre/workflow/internal/epoch/accounting.go:23-125 | Between closes of a run without fees and losses the share price never falls, short deliveries included. |
| ProtocolTheorems.CompletionsExclude | docs/security/INVARIANTS.md:255 | On reads of states a run goes through, the two completions exclude each other. |
| ProtocolProgress.LogsAreEmitted | evm/src/libraries/vaults/ParentVaultEpochLib.sol:293-301 | At every moment of a run the log of whatever the parent waits for from a child has been emitted. |
| ProtocolProgress.OwedWithdrawalIsSubmitted | cre/workflow/internal/epoch/handlers.go:120-169 | Whenever a remote withdrawal is owed, an execution that gets its log on a current operational read submits exactly it, until the child has handled it. |
| ProtocolProgress.PendingMoveIsSubmitted | cre/workflow/internal/rebalance/handlers.go:199-246 | The same for a rebalance in progress away from a child. |
| ProtocolProgress.WhichDeliveriesFinish | evm/src/libraries/vaults/ParentVaultEpochLib.sol:327-366 | While an epoch of a run is executing, the vault accepts exactly the full net deposit and the short deliveries that still allocate a share, among them all that leave one asset unit, and the epoch is then claimable. |
| ProtocolProgress.WhichReceiptsFinish | evm/src/libraries/vaults/ParentVaultCcipLib.sol:70-97 | For a net withdrawal the vault accepts exactly the receipts that do not overflow the claim, of any amount, and the epoch is then claimable. |
| ProtocolProgress.AllocationAnswer | evm/src/libraries/vaults/ParentVaultEpochLib.sol:340-361 | After any close the reconciliation accepts exactly what allocates a share, and a zero allocation is the only refusal of a short delivery. |
| ProtocolProgress.DeliveryAnswer | evm/src/libraries/vaults/ParentVaultEpochLib.sol:327-366 | The vault answers a delivery of the close in transit as the reconciliation of that close does, and a completed epoch is claimable. |
| ProtocolProgress.ReceiptAnswer | evm/src/libraries/vaults/ParentVaultCcipLib.sol:70-97 | What the vault answers to any receipt of the close in transit, and the claim it leaves. |
| EpochLifecycle.EpochsAreInOrder | docs/security/INVARIANTS.md:205 | In every state the current epoch is open, later ones are untouched, the previous one is executing or claimable, and older ones are claimable. |
| EpochLifecycle.EpochsOnlyAdvance | docs/security/INVARIANTS.md:186-189 | An epoch's status never goes back, its requests are frozen once it is not open, and nothing of it changes while it executes. |

## Left out

- IEEE arithmetic of APYs: NaN, infinities, negative zero and rounding; APYs are reals.
- The lexical level of JSON, and the nesting limit of Go's own decoder; the model starts from tokens and plain values.
- The size limit of the response, HTTP status, secrets, consensus aggregation, report signing and write receipts.
- ABI encoding of the vault calls: a function parameter from calls to bytes.
- Keccak, address parsing and text normalisation: parameters about which nothing is assumed.
- The library's stable sort is an insertion sort here; uniqueness of the ranked order makes the algorithm immaterial.
- Pauses, roles, recovery modes and adapter failures on chain, which only make steps revert.
- Per-user entries, share tokens and the pro-rata split of claims within an epoch.
- The Rust relay, upgrades, fees other than the management fee, and deployment.
- Preflight.InitiationMirrorsVault: one direction only, because the vault has no part in the choice of a pool; when an initiation is submitted at all is exact in `RebalanceTheorems`.
- ProtocolTheorems.ClosesKeepThePrice: assumes that strategies lose nothing between closes and that no fee is minted, because both may lower the price in the system too.
- ProtocolTheorems.OneWithdrawalPerEpoch: about executed withdrawals; a stale read of a child may submit one again, which the child refuses.
