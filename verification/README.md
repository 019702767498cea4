# Swap handling of the Liquid SDK, modelled and proved in Dafny

The SDK moves money with swaps whose rows many tasks write: status-stream handlers, block listeners, SDK
calls, chain recovery and real-time sync. This project models the row stores, the protocol by which
tasks claim a swap, the handlers of chain, receive and send swaps, and the amount arithmetic and
bookkeeping around them, and proves what holds in every interleaving, run or input.

| module | subject |
|---|---|
| `ChainStore`, `ReceiveStore` | the swap tables: guarded and unguarded UPDATEs, versioned full-row writes |
| `Serializability` | optimistic full-row writes never lose an update |
| `ClaimProtocol` | the claim protocol on the two columns it depends on, over all interleavings |
| `Recovery` | chain recovery and real-time sync as full-row writers |
| `TableClaims` | the protocol on a whole table with its statements and full-row writers, by simulation |
| `ChainClaims`, `ReceiveClaims` | the two tables as instances of it |
| `ChainHandler` | chain swap status handling, rescans and claims, over whole runs |
| `OutgoingRefund` | refund sweeps of outgoing chain swaps and send swaps |
| `ReceiveHandler` | receive swap claims from their three entry points, over whole runs |
| `FeeMath`, `OnchainPayment`, `SubmarineDrain` | rounding, quote and pay, drain |
| `AmountlessSwap` | quote acceptance of amountless swaps and its rollback |
| `Sums`, `WalletLedger`, `WalletInfo`, `UtxoSelection` | ledger folds and multiset selection |
| `AddressPool` | reserved addresses |

How the code is represented. A statement or transaction, a section under the `claiming_swaps` lock, and
the outcome of a network call are one step each; between two awaits a task acts in one step, and a task
that awaits keeps the row it read. `update_swap_info` has no await, so its validation and its write,
which are separate statements, are taken as one step. Events that are not enabled leave the state as it
is, so every sequence of events is a run. The update trigger is only known to make `version` larger.
SQL errors, chain services, the swapper and the wallet answer arbitrarily. Percentages are exact
rationals below 100; a u64 subtraction that would underflow is an error.

Where the code does not meet a property one would expect, the model keeps the code and states exactly
when it does:

* A claim id in flight or already accepted survives a full-row write exactly if the write keeps it
  (`CommitHarmlessIff`). Chain recovery keeps it if the chain shows that claim or the grace period
  applies; real-time sync, which takes the local version but not the local ids, only if the chain shows it
  (`RecoveryKeepsClaimIff`, `PullKeepsClaimIff`). A sync, or a recovery outside the grace period, whose data
  shows no claim makes a second claim be broadcast; if the network refuses it, its rollback leaves the row
  without the id of the accepted claim (`UnshownClaimIsClaimedAgain`, for both tables).
* An incoming swap records a confirmed server lockup even when its verification failed, and the block
  rescan claims a recorded lockup without looking at its amount. From every reachable state that can still
  record one, the claimed lockup is verified exactly if the announced transaction passes the verification or
  had passed it before (`RescanClaimsVerifiedIff`); if all confirmed announcements pass, every claim of every
  run is of a verified lockup (`HonestRunsClaimVerified`).
* A recovery of a chain swap can take back what was recorded or bring in a server lockup nobody verified,
  which a rescan then claims, for outgoing swaps too (`RecoveredLockupIsClaimed`). It is harmless exactly if it
  is skipped or the chain confirms what is stored (`RecoveryKeepsIff`, there and for receive swaps).
* A drain quote is refused by `pay_onchain` unless a remainder condition holds (`PayAcceptsDrainIff`).
* An accepted receiver amount can be erased after the swapper accepted it: by a refused acceptance that
  overlapped, such as a second call of the user (`OverlapErasesAccepted`), and by any further amountless update, such as a repeated
  TransactionLockupFailed status, even if nothing overlaps (`RepeatedUpdateErasesAccepted`,
  `FurtherUpdateErases`). While no further acceptance begins, it stays in every continuation exactly if every
  task has finished or can no longer accept a quote (`StoredAmountStaysIff`).
* The refund of a send swap in RefundPending is not recorded, because that transition is rejected
  (`SendSweepSafety` says when it is recorded, `PeriodicSendRefundNotRecorded` what follows).
* After an accepted refund of a chain swap the next sweep gets a second one exactly if the record was lost
  and a refund is still due (`RefundedTwiceIff`), or a recovery outside the grace period finds neither the
  refund nor a state without one due (`RecoveryRefundsAgainIff`).

## Model

| member | source | states |
|---|---|---|
| ChainStore.ChainSwapTable.InsertOrUpdate | lib/core/src/persist/chain.rs:15-132 | a full-row write succeeds exactly if the caller has the stored version (or inserts with version 0), and then every column is the caller's apart from the terms, `auto_accepted_fees` and the version; a mismatch changes nothing |
| ChainStore.ChainSwapTable.TrySetClaim | lib/core/src/persist/chain.rs:416-440 | the claim id and address are set exactly if no id is stored, and nothing else changes; otherwise AlreadyClaimed and no change |
| ChainStore.ChainSwapTable.TryUnsetClaim | lib/core/src/persist/chain.rs:442-460 | the claim id is cleared only if it is the caller's own |
| ChainStore.ChainSwapTable.Run | lib/core/src/persist/chain.rs:281-414 | each single-row statement changes the selected row alone and gives it a larger version |
| ChainStore.SingleColumnStatements | lib/core/src/persist/chain.rs:281-414 | each single-column statement writes its value and touches no other column |
| ChainStore.UpdatesKeepFirstIds | lib/core/src/persist/chain.rs:462-497 | over any sequence of status updates lockup ids, claim id and claim address keep the first value given |
| ChainStore.LastRefundGiven | lib/core/src/persist/chain.rs:462-497 | over any sequence of status updates the refund id is the last one given |
| ChainStore.NoRefundGiven | lib/core/src/persist/chain.rs:462-497 | status updates without a refund id keep the stored one |
| ChainStore.OtherColumns | lib/core/src/persist/chain.rs:462-497 | the state is the last one given, and status updates touch only the state, the ids and the claim address |
| Serializability.InterleavingIsSerial | lib/core/src/persist/chain.rs:64-132 | any interleaving of statements and versioned read-modify-writes has the effect of a serial run of atomic ones |
| Serializability.CommitSawStoredRow | lib/core/src/persist/chain.rs:79-102 | a committed full-row write saw exactly the row it replaces; a refused one leaves the table alone |
| Serializability.CommitsIffUntouched | lib/core/src/persist/migrations.rs:255-277 | a full-row write is refused exactly if its row was updated since it was read |
| Serializability.UndisturbedCycleWrites | lib/core/src/persist/chain.rs:64-98 | a cycle nobody disturbs writes what the writer makes of the stored row |
| Serializability.NewSwapTakesEffect | lib/core/src/persist/chain.rs:22-62 | a new swap is inserted as given exactly if there is none with its id |
| Recovery.GraceProtects | lib/core/src/recover/handlers/handle_chain_receive_swap.rs:18-39 | within the grace period a recovery that misses a stored claim or refund id, or an outgoing swap's lockup id, changes nothing |
| Recovery.RecoveryTakesOver | lib/core/src/recover/handlers/handle_chain_receive_swap.rs:111-160 | any other recovery takes over the ids and the derived state, an incoming swap's claim address and payer amount too, and no other column |
| Recovery.PullTakesOver | lib/core/src/sync/mod.rs:430-469 | a pulled swap has the local version, the ids and state the chain shows, and the other columns of the record |
| Recovery.ReceiveRecoveryTakesOver | lib/core/src/recover/handlers/handle_receive_swap.rs:19-143 | the same for receive swaps, whose amounts an MRH payment replaces |
| Recovery.ReceivePullTakesOver | lib/core/src/sync/mod.rs:430-469 | what a pulled receive swap is made of |
| ClaimProtocol.RunPreservesInv | lib/core/src/chain_swap.rs:836-966 | the protocol invariant holds in every run whose full-row writes keep a claim id they read |
| ClaimProtocol.OneTaskInWindow | lib/core/src/chain_swap.rs:874-958 | at most one task per swap is between its compare-and-set and its outcome, and the row carries its id throughout |
| ClaimProtocol.OneTaskPerProcess | lib/core/src/chain_swap.rs:836-854 | the set of swaps being claimed lets one task per process and swap through, in every run |
| ClaimProtocol.AcceptedClaimIsFinal | lib/core/src/chain_swap.rs:876-958 | a claim accepted by the network stays stored for the rest of the run; no other one of its swap is accepted or even broadcast |
| ClaimProtocol.RollBackClearsOwnIdOnly | lib/core/src/chain_swap.rs:948-956 | a rollback clears the failing task's own id, of a swap without an accepted claim, and nothing else |
| ClaimProtocol.CommitHarmlessIff | lib/core/src/persist/chain.rs:64-102 | a full-row write preserves the invariant exactly if it is refused, keeps the claim id, or nobody relies on it |
| ClaimProtocol.ClaimingRun | lib/core/src/chain_swap.rs:836-966 | an undisturbed claim of a swap nobody is claiming stores and broadcasts the id exactly if the row is unclaimed and a transaction is built; a refusal leaves no id, and the lock is released either way |
| TableClaims.RunKeepsProtocol | lib/core/src/chain_swap.rs:836-966 | in every run of a lawful table the claim columns follow the protocol, and its invariant holds if the full-row writes are sound |
| TableClaims.DroppedClaimIsClaimedAgain | lib/core/src/chain_swap.rs:856-966 | on any lawful table, after a write that drops the id of an accepted claim a second one is broadcast; accepted, there are two, and refused, the row is left without a claim id |
| ChainClaims.StoreIsLawful | lib/core/src/persist/chain.rs:64-132 | the statements and full-row writes act on the claim columns as the protocol has it, and recovery and sync keep a claim id exactly when what the chain shows is as stated |
| ChainClaims.RowCarriesTheClaimInFlight | lib/core/src/persist/chain.rs:417-460 | in every run of the chain swap table with sound recovery writes, the row carries the id of the one claim in flight |
| ChainClaims.AcceptedClaimStaysStored | lib/core/src/chain_swap.rs:876-958 | in every such run an accepted claim stays in the chain swap row, and no other one of the swap is accepted or broadcast |
| ChainClaims.UnshownClaimIsClaimedAgain | lib/core/src/sync/mod.rs:430-469 | that happens after a sync, or a recovery outside the grace period, that does not find the accepted claim on chain |
| ReceiveStore.ReceiveTables.InsertOrUpdate | lib/core/src/persist/receive.rs:15-134 | versioned full-row write of every column but the MRH address and the claim fees; a committed swap with an MRH payment holds no reservation |
| ReceiveStore.ReceiveTables.TrySetClaim | lib/core/src/persist/receive.rs:279-301 | the claim id is set exactly if none is stored |
| ReceiveStore.ReceiveTables.TryUnsetClaim | lib/core/src/persist/receive.rs:303-321 | the claim id is cleared only if it is the caller's own |
| ReceiveStore.ReceiveTables.UpdateInfo | lib/core/src/receive_swap.rs:292-325 | a valid transition is written, an invalid one refused; an MRH payment releases the stored address and no other |
| ReceiveStore.StatementColumns | lib/core/src/persist/receive.rs:323-370 | a status update fills absent ids, an MRH amount replaces both amounts, and nothing else changes but the state |
| ReceiveClaims.RowCarriesTheClaimInFlight | lib/core/src/receive_swap.rs:327-439 | the claim in flight of a receive swap is the one its row carries |
| ReceiveClaims.AcceptedClaimStaysStored | lib/core/src/receive_swap.rs:376-430 | an accepted claim stays in the receive swap row, and no other one of the swap is accepted or broadcast |
| ReceiveClaims.UnshownClaimIsClaimedAgain | lib/core/src/recover/handlers/handle_receive_swap.rs:19-143 | the same for receive swaps, their recovery and sync |
| ChainHandler.ClaimSafety | lib/core/src/chain_swap.rs:175-337 | in every run with keeping full-row writes a claim is attempted only with a recorded server lockup, after it was seen in a block, or on its status: then it pays the agreed amount, or the accepted amount and the claim fees, and is confirmed, or not replaceable and read with zero-conf accepted; outgoing swaps only claim and record lockups found to pay the agreed amount |
| ChainHandler.ServerStatusRun | lib/core/src/chain_swap.rs:233-337 | what an undisturbed server lockup status records and claims, exactly, whatever the checks and the recording statement answer |
| ChainHandler.RescanRun | lib/core/src/chain_swap.rs:107-197 | what an undisturbed block rescan claims, exactly |
| ChainHandler.HandlerUpdateApplies | lib/core/src/chain_swap.rs:820-834 | an update of the handlers applies exactly if the transition is valid, and writes the state and the id it carries |
| ChainHandler.TransitionsFrom | lib/core/src/chain_swap.rs:1574-1616 | the valid transitions out of each state |
| ChainHandler.NeverGoesBack | lib/core/src/chain_swap.rs:1209-1257 | over runs with keeping full-row writes: early states are left for good, lockup ids are written once, a refund id is never lost, Created and TimedOut swaps have no transactions |
| ChainHandler.OverwriteKeepsIff | lib/core/src/persist/chain.rs:64-102 | a full-row write meets the keeping condition exactly if it takes nothing back and keeps the evidence behind every claim |
| ChainHandler.RecoveryKeepsIff | lib/core/src/recover/handlers/handle_chain_receive_swap.rs:18-165 | a recovery keeps exactly if it is skipped, or the chain shows the stored ids, a state that does not go back, and no lockup that was never checked |
| ChainHandler.RecoveredLockupIsClaimed | lib/core/src/chain_swap.rs:107-197 | a rescan claims the lockup a recovery put into a pending swap; it is verified and pays the agreed amount exactly if it was and did before |
| ChainHandler.RescanClaimsVerifiedIff | lib/core/src/chain_swap.rs:300-336 | whatever is announced as confirmed to a waiting incoming swap is recorded and claimed by the rescan; it is a verified lockup exactly if the announced transaction matches, is confirmed and pays the threshold, or had been verified before |
| ChainHandler.HonestRunsClaimVerified | lib/core/src/chain_swap.rs:237-337 | in every run whose confirmed announcements pass the verification and whose full-row writes bring in no other lockup, every recorded and every claimed lockup is a verified one |
| ChainHandler.IncomingRescanClaimsUnverified | lib/core/src/chain_swap.rs:107-130 | an underpaid lockup that the rescan of a new incoming swap claims |
| ChainHandler.ChainSwapHandler.UpdateSwapInfo | lib/core/src/chain_swap.rs:820-834 | an update is applied exactly if the transition is valid, to this row only, and never takes it back |
| ChainHandler.ChainSwapHandler.BeginClaim | lib/core/src/chain_swap.rs:836-844 | one task at a time enters the claim of a swap |
| ChainHandler.ChainSwapHandler.ClaimInner | lib/core/src/chain_swap.rs:856-966 | the id is stored exactly if the row is unclaimed, a transaction is built and the broadcast accepted; a stored claim address is never replaced, an outgoing swap's never changes, and an incoming swap without one gets the unused address exactly with its claim id |
| ChainHandler.ChainSwapHandler.Claim | lib/core/src/chain_swap.rs:836-966 | an undisturbed call does to the table and the lock exactly what its run of the claim protocol does, touches only the claim columns of its row, and keeps a stored claim address |
| OutgoingRefund.RefundSafety | lib/core/src/chain_swap.rs:1156-1207 | over any blocks, updates and full-row writes, non-cooperative refunds only past the locktime, and at most one accepted refund from the sweeps if records succeed and full-row writes keep them |
| OutgoingRefund.AcceptedIsRecorded | lib/core/src/chain_swap.rs:1190-1203 | an accepted refund is recorded with RefundPending unless the swap has failed meanwhile |
| OutgoingRefund.RefundedTwiceIff | lib/core/src/chain_swap.rs:1190-1203 | after an accepted refund the next sweep gets a second one exactly if the recording statement was lost and a refund is still due |
| OutgoingRefund.RecoveryRefundsAgainIff | lib/core/src/recover/handlers/handle_chain_send_swap.rs:20-138 | a recovery makes a refunded swap be refunded again exactly if the chain does not show the refund, the grace period is over and the state found has one due |
| OutgoingRefund.LostRecordRefundsTwice | lib/core/src/chain_swap.rs:1190-1203 | a run from the start in which a lost record leads to a second refund |
| OutgoingRefund.SweepAsksIff | lib/core/src/chain_swap.rs:1164-1204 | exactly when a sweep asks for a refund, that it ends with the script path if due, and that it changes the row only by a recorded refund |
| OutgoingRefund.SweepRun | lib/core/src/chain_swap.rs:1164-1204 | which refunds an undisturbed sweep asks for, in which order, and what it records |
| OutgoingRefund.OutgoingUpdateApplies | lib/core/src/chain_swap.rs:820-834 | an update of an outgoing swap applies exactly if the transition is valid, and writes what it carries |
| OutgoingRefund.RefundOutgoing | lib/core/src/chain_swap.rs:1156-1207 | the sweep loop does to every listed swap what the single sweep does, and touches no other |
| OutgoingRefund.SendSweepSafety | lib/core/src/send_swap.rs:469-529 | send refunds use the script path only past the locktime; an accepted one is recorded exactly if the stored swap is then Pending without a refund id |
| OutgoingRefund.SendSweepRun | lib/core/src/send_swap.rs:488-529 | which refunds a sweep of send swaps asks for, in which order, and what it records |
| OutgoingRefund.SendTransitionsFrom | lib/core/src/send_swap.rs:539-582 | the valid transitions of a send swap out of each state |
| OutgoingRefund.PeriodicSendRefundNotRecorded | lib/core/src/send_swap.rs:500-571 | a RefundPending send swap is refunded again at every block |
| OutgoingRefund.SendRunInvariant | lib/core/src/send_swap.rs:539-582 | in send runs Complete is absorbing and a refund id is never replaced |
| ReceiveHandler.ClaimSafety | lib/core/src/receive_swap.rs:103-257 | in every run with keeping full-row writes every claim rests on a lockup paying receiver amount and claim fees that is confirmed, or within the zero-conf limit and not signaling replacement |
| ReceiveHandler.MempoolRun | lib/core/src/receive_swap.rs:103-195 | what an undisturbed mempool lockup records and claims, exactly, and when it fails the swap |
| ReceiveHandler.ConfirmedRun | lib/core/src/receive_swap.rs:197-259 | what an undisturbed lockup announced as confirmed claims, exactly, and when it fails the swap |
| ReceiveHandler.RescanRun | lib/core/src/receive_swap.rs:441-485 | what an undisturbed block rescan claims, exactly, and when it fails the swap |
| ReceiveStore.TransitionsFrom | lib/core/src/receive_swap.rs:487-528 | the valid transitions of a receive swap out of each state |
| ReceiveHandler.NeverGoesBack | lib/core/src/receive_swap.rs:487-528 | in such runs Complete and Failed are absorbing, lockup and MRH ids are written once |
| ReceiveHandler.RecoveryKeepsIff | lib/core/src/recover/handlers/handle_receive_swap.rs:19-143 | which recoveries of a receive swap keep |
| FeeMath.LockupIsLeast | lib/core/src/sdk.rs:2564-2572 | the computed lockup leaves exactly the net amount and is the least that leaves as much |
| FeeMath.LockupOfNet | lib/core/src/sdk.rs:2661-2669 | recomputing a lockup from its net amount never exceeds it, and gives it back exactly under a remainder condition |
| FeeMath.LockupOfNetClose | lib/core/src/sdk.rs:2661-2669 | up to fifty percent it is the original or one less |
| OnchainPayment.QuotedIff | lib/core/src/sdk.rs:2550-2621 | a receiver amount is quoted exactly if its lockup is within the limits and lockup and lockup fee are within the balance, with the claim fee of the chosen rate or the pair's estimate; which error otherwise |
| OnchainPayment.DrainQuotedIff | lib/core/src/sdk.rs:2585-2605 | when a drain is quoted, with which fees, and which error otherwise |
| OnchainPayment.PaidIff | lib/core/src/sdk.rs:2644-2688 | which quotes are paid, whatever they were computed from, and which error otherwise |
| OnchainPayment.QuoteLocksUpLeast | lib/core/src/sdk.rs:2559-2584 | a quote locks up the least amount, meets the net amount exactly, and the payer pays lockup and lockup fee |
| OnchainPayment.PayAcceptsQuoteIff | lib/core/src/sdk.rs:2644-2688 | a non-drain quote is accepted unless it takes the whole balance and the two fee estimates differ |
| OnchainPayment.PayAcceptsDrainIff | lib/core/src/sdk.rs:2585-2688 | a drain quote is accepted exactly if its lockup is the least with its net amount |
| OnchainPayment.DrainQuote | lib/core/src/sdk.rs:2593-2604 | a drain quote takes the whole balance |
| OnchainPayment.DrainQuoteRefused | lib/core/src/sdk.rs:2679-2683 | a drain quote that cannot be paid |
| SubmarineDrain.IncrementUpTo | lib/core/src/utils/mod.rs:154-172 | the search stops where one more satoshi would exceed the drain amount |
| SubmarineDrain.GrossIncreases | lib/core/src/sdk.rs:1643-1650 | receiver amount plus fees is strictly increasing |
| SubmarineDrain.StartDoesNotOvershoot | lib/core/src/sdk.rs:1633-1641 | the starting point of the search does not exceed the drain amount |
| SubmarineDrain.SearchFindsGreatest | lib/core/src/sdk.rs:4652-4659 | the search ends at the greatest payable receiver amount, within one satoshi |
| SubmarineDrain.DrainIffExact | lib/core/src/sdk.rs:1630-1650 | the drain succeeds exactly with the one receiver amount that takes everything; the remainder check fails exactly if there is none |
| SubmarineDrain.DrainFailsIff | lib/core/src/sdk.rs:1630-1650 | which error a drain ends in |
| SubmarineDrain.DrainableIff | lib/core/src/sdk.rs:4664-4671 | which amounts can be drained at all |
| AmountlessSwap.AutoAcceptIff | lib/core/src/chain_swap.rs:452-521 | automatic acceptance exactly within the leeway, and the bound on what the payer loses |
| AmountlessSwap.ValidatedIff | lib/core/src/chain_swap.rs:452-521 | every outcome of validating a quote, with the estimate and the leeway written out |
| AmountlessSwap.ProposedFeesAreAccepted | lib/core/src/sdk.rs:4282-4362 | a proposal is accepted exactly while the swap waits for fee acceptance and the quote is the one it was made for; the stored amount is the one shown |
| AmountlessSwap.ProposedIff | lib/core/src/sdk.rs:4282-4318 | when the user is shown a proposal, and which |
| AmountlessSwap.UserAcceptsIff | lib/core/src/sdk.rs:4320-4362 | which proposals sent back are accepted, whatever they were made from |
| AmountlessSwap.AcceptedQuoteIsTheThreshold | lib/core/src/chain_swap.rs:1363-1382 | after either acceptance the incoming lockup must pay at least the accepted quote |
| AmountlessSwap.StoredMeansAccepted | lib/core/src/chain_swap.rs:400-450 | in every run with keeping full-row writes a stored amount with no acceptance of it in flight is, with the claim fees, a quote the swapper accepted |
| AmountlessSwap.SyncKeepsIff | lib/core/src/sync/mod.rs:430-469 | recovery keeps; sync keeps exactly if the amount of the remote record was accepted or is in flight here |
| AmountlessSwap.StepKeepsAmountIff | lib/core/src/chain_swap.rs:400-434 | exactly which steps replace or erase a stored amount |
| AmountlessSwap.StoredAmountStaysIff | lib/core/src/sdk.rs:4361-4375 | while no further acceptance begins and full-row writes bring the amount along, a stored amount stays in every continuation exactly if every task has finished or can accept no quote |
| AmountlessSwap.FurtherUpdateErases | lib/core/src/chain_swap.rs:403-409 | an amountless update begun while an amount is stored erases it, in every state |
| AmountlessSwap.OverlapErasesAccepted | lib/core/src/sdk.rs:4351-4375 | a refused acceptance erases the amount of an accepted one it overlaps, for any two of user calls and handler updates |
| AmountlessSwap.RepeatedUpdateErasesAccepted | lib/core/src/chain_swap.rs:346-356 | a repeated lockup-failed status erases the accepted amount without any overlap |
| WalletLedger.Balances | lib/core/src/persist/mod.rs:219-239 | the loops compute the net flow of exactly the assets that appear |
| WalletLedger.StoredBalances | lib/core/src/persist/mod.rs:241-265 | the stored entries reconstruct the net flow; for an L-BTC send amount and fee make up the outflow |
| WalletLedger.OrderDoesNotMatter | lib/core/src/persist/mod.rs:219-239 | the order of inputs and outputs does not matter |
| WalletInfo.OnchainBalance | lib/core/src/sdk.rs:4166-4195 | the on-chain balance counts confirmed amounts and unconfirmed spends |
| WalletInfo.WalletTotals | lib/core/src/sdk.rs:4197-4234 | the usable balance is what remains after all unseen sends at once, floored at zero; the pending totals are sums |
| WalletInfo.OneMoreTx | lib/core/src/sdk.rs:4168-4177 | what one more transaction counts |
| WalletInfo.OneMorePayment | lib/core/src/sdk.rs:4208-4234 | what one more payment adds to each total |
| WalletInfo.OrderDoesNotMatter | lib/core/src/sdk.rs:4208-4234 | the totals do not depend on the order of payments |
| WalletInfo.DeductedAreSent | lib/core/src/sdk.rs:4219-4225 | what is deducted is part of the pending sends |
| UtxoSelection.SelectUtxos | lib/core/src/payjoin/side_swap.rs:426-469 | succeeds exactly if the requests are available with multiplicity; results match requests; nothing is lost or invented |
| UtxoSelection.ValueIsConserved | lib/core/src/payjoin/side_swap.rs:426-469 | per-asset sums are the requested ones and are conserved |
| UtxoSelection.NoUtxoUsedTwice | lib/core/src/payjoin/side_swap.rs:430-434 | no outpoint is selected twice |
| AddressPool.ReservedAddresses.NextExpired | lib/core/src/persist/address.rs:10-45 | takes out an earliest expired address, and none exactly if none has expired |
| AddressPool.PopsAscend | lib/core/src/persist/address.rs:31-45 | pops at one tip are distinct, expired and in ascending order of expiry |
| AddressPool.PopsExhaust | lib/core/src/persist/address.rs:10-29 | pops at one tip end exactly when the expired set has been given out |
| AddressPool.OnePopPerReservation | lib/core/src/persist/address.rs:10-86 | over any run an address is popped at most once per reservation |
| AddressPool.PoppedOnlyAfterExpiry | lib/core/src/persist/address.rs:10-29 | an address is popped only after its last reservation has expired |

## Left out

- Network calls, chain services, the swapper, the wallet, blinding, signing and script construction: their answers are arbitrary; that a user lockup is verified is one arbitrary answer.
- RunPreservesInv: the protocol theorems assume that every full-row write keeps a claim id it read; which writes do is stated exactly, and recoveries and sync can fail to.
- RefundSafety: at most one accepted refund is claimed of the sweeps of one process only; a status handler, or the sweep of a second process on the same database, may refund at the same time.
- StoredMeansAccepted: the statement that erases a refused amount is taken to succeed, because the code ignores its failure.
- LockupTx: the mempool branch of a receive swap does not compare the announced transaction id with the content it checks; the model keeps one id for both.
- Claim: the calls of `claim` in `ChainSwapHandler` are undisturbed; interleaved claims are the runs of `ClaimProtocol`. The pseudo payment written beside an incoming claim is not modelled.
- ServerStatusRun: the side update of the user lockup id and payer amount made while verifying the user lockup is one of the interleaved updates.
- StoredBalances: amounts are unbounded; the casts to i64 of values above 2^63 are not modelled.
- SendSweepSafety: a send swap is reduced to its state and refund id and the sweep is modelled per swap on values, with the row it listed and the row stored when the answer comes; the loop and the store of send swaps are not.
- LockupIsLeast: percentages are exact rationals; rounding of f64 is not modelled.
- Crashes, cancellation and panics between a broadcast and its persistence.
- The payment rows, sync commit bookkeeping, events and notifications written beside the swap rows.
- Creation of swaps, the user's refund of incoming swaps, cooperative claims of send swaps, and payments to Lightning, BOLT12 or Liquid addresses.
- How recovery derives transactions and states from script histories: its result is an arbitrary value.
- The wallet update log: it holds opaque wallet bytes that only the wallet replays, and no swap, balance or refund decision reads it.
