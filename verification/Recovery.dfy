/**
The full-row writers of swaps: recovery from onchain data, and real-time sync, which rebuilds the swap
from a remote record, gives it the local version and then recovers it.
*/
module Recovery {
  import opened Wrappers
  import opened SwapTypes

  /** What the chain services know about a chain swap; `state` is the state derived from it, if any. */
  datatype ChainData = ChainData(
    userLockup: Option<TxId>,
    serverLockup: Option<TxId>,
    claimTx: Option<TxId>,
    claimAddress: Option<Address>,
    refundTx: Option<TxId>,
    userLockupAmount: nat,
    state: Option<PaymentState>)

  datatype ReceiveData = ReceiveData(
    claimTx: Option<TxId>,
    lockupTx: Option<TxId>,
    mrhTx: Option<TxId>,
    mrhAmount: Option<nat>,
    state: Option<PaymentState>)

  predicate Clears(stored: Option<TxId>, recovered: Option<TxId>) {
    stored.Some? && recovered.None?
  }

  /** Within the grace period a recovery that would clear a transaction we may just have sent is skipped. */
  predicate SkipsChain(swap: ChainSwap, data: ChainData, grace: bool) {
    && grace
    && (|| Clears(swap.claimTx, data.claimTx)
        || Clears(swap.refundTx, data.refundTx)
        || (swap.terms.direction.Outgoing? && Clears(swap.userLockup, data.userLockup)))
  }

  function RecoverChain(swap: ChainSwap, data: ChainData, grace: bool): ChainSwap {
    if SkipsChain(swap, data, grace) then swap else
    var recovered := swap.(
                     state := if data.state.Some? then data.state.value else swap.state,
                     userLockup := data.userLockup,
                     serverLockup := data.serverLockup,
                     claimTx := data.claimTx,
                     refundTx := data.refundTx);
    if swap.terms.direction.Outgoing? then recovered else
    recovered.(claimAddress := data.claimAddress,
    actualPayer := if data.userLockupAmount > 0 then Some(data.userLockupAmount) else swap.actualPayer)
  }

  /** The swap a sync record is turned into: no transaction ids, and the version of the local row. */
  function FromRecord(remote: ChainSwap, localVersion: nat): ChainSwap {
    remote.(actualPayer := None, refundAddress := None, serverLockup := None, userLockup := None, claimTx := None,
    refundTx := None, state := Created, version := localVersion)
  }

  /** A record carries no update time, so it is never within the grace period. */
  function PullChain(remote: ChainSwap, localVersion: nat, data: ChainData): ChainSwap {
    RecoverChain(FromRecord(remote, localVersion), data, false)
  }

  predicate Keeps(before: Option<TxId>, after: Option<TxId>) {
    before.Some? ==> after == before
  }

  /**
  Within the grace period a recovery that misses a stored claim or refund id, or an outgoing swap's lockup id,
  leaves the whole swap alone.
  */
  lemma GraceProtects(swap: ChainSwap, data: ChainData)
    requires || (swap.claimTx.Some? && data.claimTx.None?)
             || (swap.refundTx.Some? && data.refundTx.None?)
             || (swap.terms.direction.Outgoing? && swap.userLockup.Some? && data.userLockup.None?)
    ensures RecoverChain(swap, data, true) == swap
  {
  }

  /**
  Any other recovery takes over every id from the chain, and the state if one was derived; only an incoming
  swap's claim address and payer amount come from the chain.
  */
  lemma RecoveryTakesOver(swap: ChainSwap, data: ChainData, grace: bool)
    requires grace ==> && (swap.claimTx.Some? ==> data.claimTx.Some?) && (swap.refundTx.Some? ==> data.refundTx.Some?)
                       && (swap.terms.direction.Outgoing? && swap.userLockup.Some? ==> data.userLockup.Some?)
    ensures var r, incoming := RecoverChain(swap, data, grace), swap.terms.direction.Incoming?;
            && r.serverLockup == data.serverLockup && r.userLockup == data.userLockup
            && r.claimTx == data.claimTx && r.refundTx == data.refundTx
            && (data.state.Some? ==> r.state == data.state.value) && (data.state.None? ==> r.state == swap.state)
            && r.claimAddress == (if incoming then data.claimAddress else swap.claimAddress)
            && (incoming && data.userLockupAmount > 0 ==> r.actualPayer == Some(data.userLockupAmount))
            && (!incoming || data.userLockupAmount == 0 ==> r.actualPayer == swap.actualPayer)
            && r.(serverLockup := swap.serverLockup, userLockup := swap.userLockup, claimTx := swap.claimTx,
               refundTx := swap.refundTx, state := swap.state, claimAddress := swap.claimAddress,
               actualPayer := swap.actualPayer) == swap
  {
  }

  /** A pulled swap has the local version, the ids and state of the chain, and the other columns of the record. */
  lemma PullTakesOver(remote: ChainSwap, version: nat, data: ChainData)
    ensures var r, incoming := PullChain(remote, version, data), remote.terms.direction.Incoming?;
            && r.version == version && r.state == (if data.state.Some? then data.state.value else Created)
            && r.serverLockup == data.serverLockup && r.userLockup == data.userLockup
            && r.claimTx == data.claimTx && r.refundTx == data.refundTx && r.refundAddress.None?
            && r.claimAddress == (if incoming then data.claimAddress else remote.claimAddress)
            && r.actualPayer == (if incoming && data.userLockupAmount > 0 then Some(data.userLockupAmount) else None)
            && r.(version := remote.version, state := remote.state, serverLockup := remote.serverLockup,
               userLockup := remote.userLockup, claimTx := remote.claimTx, refundTx := remote.refundTx,
               refundAddress := remote.refundAddress, claimAddress := remote.claimAddress,
               actualPayer := remote.actualPayer) == remote
  {
  }

  /** Recovery keeps a stored claim id exactly if the chain shows that very claim or the recovery is skipped. */
  lemma RecoveryKeepsClaimIff(swap: ChainSwap, data: ChainData, grace: bool)
    ensures Keeps(swap.claimTx, RecoverChain(swap, data, grace).claimTx) <==>
            || swap.claimTx.None? || data.claimTx == swap.claimTx
            || (grace && (|| data.claimTx.None?
                          || (swap.refundTx.Some? && data.refundTx.None?)
                          || (swap.terms.direction.Outgoing? && swap.userLockup.Some? && data.userLockup.None?)))
    ensures RecoverChain(swap, data, grace).version == swap.version
  {
  }

  /** Sync keeps the claim id of the local row only if the chain already shows that claim. */
  lemma PullKeepsClaimIff(local: ChainSwap, remote: ChainSwap, data: ChainData)
    ensures Keeps(local.claimTx, PullChain(remote, local.version, data).claimTx) <==>
            local.claimTx.None? || data.claimTx == local.claimTx
    ensures PullChain(remote, local.version, data).version == local.version
  {
  }

  predicate SkipsReceive(swap: ReceiveSwap, data: ReceiveData, grace: bool) {
    grace && Clears(swap.claimTx, data.claimTx)
  }

  function RecoverReceive(swap: ReceiveSwap, data: ReceiveData, grace: bool): ReceiveSwap {
    if SkipsReceive(swap, data, grace) then swap else
    swap.(state := if data.state.Some? then data.state.value else swap.state,
    claimTx := data.claimTx,
    mrhTx := data.mrhTx,
    lockupTx := data.lockupTx,
    payerAmount := if data.mrhAmount.Some? then data.mrhAmount.value else swap.payerAmount,
    receiverAmount := if data.mrhAmount.Some? then data.mrhAmount.value else swap.receiverAmount)
  }

  function PullReceive(remote: ReceiveSwap, localVersion: nat, data: ReceiveData): ReceiveSwap {
    RecoverReceive(remote.(claimAddress := None, claimTx := None, lockupTx := None, mrhTx := None, state := Created,
                   version := localVersion), data, false)
  }

  /**
  A receive recovery within the grace period that misses a stored claim id leaves the swap alone; any other
  takes over the ids from the chain, and an MRH amount as both amounts.
  */
  lemma ReceiveRecoveryTakesOver(swap: ReceiveSwap, data: ReceiveData, grace: bool)
    ensures var r := RecoverReceive(swap, data, grace);
            if grace && swap.claimTx.Some? && data.claimTx.None? then r == swap
            else && r.claimTx == data.claimTx && r.lockupTx == data.lockupTx && r.mrhTx == data.mrhTx
                 && (data.state.Some? ==> r.state == data.state.value) && (data.state.None? ==> r.state == swap.state)
                 && (data.mrhAmount.Some? ==> r.payerAmount == r.receiverAmount == data.mrhAmount.value)
                 && r.(claimTx := swap.claimTx, lockupTx := swap.lockupTx, mrhTx := swap.mrhTx, state := swap.state,
                    payerAmount := swap.payerAmount, receiverAmount := swap.receiverAmount) == swap
                 && (data.mrhAmount.None? ==>
                       r.payerAmount == swap.payerAmount && r.receiverAmount == swap.receiverAmount)
  {
  }

  /** A pulled receive swap has the local version and what the chain shows, whatever the record says of it. */
  lemma ReceivePullTakesOver(remote: ReceiveSwap, version: nat, data: ReceiveData)
    ensures var r := PullReceive(remote, version, data);
            && r.version == version && r.state == (if data.state.Some? then data.state.value else Created)
            && r.claimTx == data.claimTx && r.lockupTx == data.lockupTx && r.mrhTx == data.mrhTx && r.claimAddress.None?
            && r.payerAmount == (if data.mrhAmount.Some? then data.mrhAmount.value else remote.payerAmount)
            && r.receiverAmount == (if data.mrhAmount.Some? then data.mrhAmount.value else remote.receiverAmount)
            && r.(version := remote.version, state := remote.state, claimTx := remote.claimTx,
               lockupTx := remote.lockupTx, mrhTx := remote.mrhTx, claimAddress := remote.claimAddress,
               payerAmount := remote.payerAmount, receiverAmount := remote.receiverAmount) == remote
  {
  }

  lemma ReceiveRecoveryKeepsClaimIff(swap: ReceiveSwap, data: ReceiveData, grace: bool)
    ensures Keeps(swap.claimTx, RecoverReceive(swap, data, grace).claimTx) <==>
            swap.claimTx.None? || data.claimTx == swap.claimTx || (grace && data.claimTx.None?)
    ensures RecoverReceive(swap, data, grace).version == swap.version
  {
  }
}
