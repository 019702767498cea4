/** Vocabulary shared by the swap stores and handlers. */
module SwapTypes {
  import opened Wrappers

  type SwapId = string
  type TxId = string
  type Address = string

  datatype PaymentState =
    | Created
    | Pending
    | Complete
    | Failed
    | TimedOut
    | Refundable
    | RefundPending
    | WaitingFeeAcceptance

  datatype Direction = Incoming | Outgoing

  /** The columns of a chain swap fixed when the row is inserted. */
  datatype ChainTerms = ChainTerms(
    direction: Direction,
    payerAmount: nat,
    receiverAmount: nat,
    claimFees: nat,
    timeoutHeight: nat)

  /** A chain swap, both as a row of `chain_swaps` and as the value a task read from it. */
  datatype ChainSwap = ChainSwap(
    terms: ChainTerms,
    description: Option<string>,
    acceptZeroConf: bool,
    serverLockup: Option<TxId>,
    userLockup: Option<TxId>,
    claimAddress: Option<Address>,
    claimTx: Option<TxId>,
    refundAddress: Option<Address>,
    refundTx: Option<TxId>,
    pairFees: string,
    state: PaymentState,
    actualPayer: Option<nat>,
    acceptedReceiver: Option<nat>,
    autoAccepted: bool,
    version: nat)

  /** The payload of a status update; absent ids leave the stored ones alone. */
  datatype ChainUpdate = ChainUpdate(
    toState: PaymentState,
    serverLockup: Option<TxId>,
    userLockup: Option<TxId>,
    claimAddress: Option<Address>,
    claimTx: Option<TxId>,
    refundTx: Option<TxId>)

  /** A receive swap, both as a row of `receive_swaps` and as the value a task read from it. */
  datatype ReceiveSwap = ReceiveSwap(
    mrhAddress: Address,
    claimFees: nat,
    bolt12Offer: Option<string>,
    description: Option<string>,
    payerNote: Option<string>,
    claimAddress: Option<Address>,
    claimTx: Option<TxId>,
    lockupTx: Option<TxId>,
    mrhTx: Option<TxId>,
    payerAmount: nat,
    receiverAmount: nat,
    state: PaymentState,
    version: nat)
}
