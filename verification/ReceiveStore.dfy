/** The `receive_swaps` table, and the reservations its MRH payments release. */
module ReceiveStore {
  import opened Wrappers
  import opened SwapTypes
  import AddressPool

  type Table = map<SwapId, ReceiveSwap>

  datatype Statement =
    | ClaimAddress(address: Address)
    | SetClaim(claimTx: TxId)
    | UnsetClaim(ownTx: TxId)
    | StatusUpdate(update: ReceiveUpdate)

  /** The payload of a status update; an MRH amount replaces both amounts. */
  datatype ReceiveUpdate = ReceiveUpdate(
    toState: PaymentState,
    claimTx: Option<TxId>,
    lockupTx: Option<TxId>,
    mrhTx: Option<TxId>,
    mrhAmount: Option<nat>)

  datatype StoreError = VersionMismatch | AlreadyClaimed | NotFound | InvalidTransition

  predicate Selects(stmt: Statement, row: ReceiveSwap) {
    match stmt
    case SetClaim(_) => row.claimTx.None?
    case UnsetClaim(ownTx) => row.claimTx == Some(ownTx)
    case _ => true
  }

  function Assign(stmt: Statement, row: ReceiveSwap): ReceiveSwap {
    match stmt
    case ClaimAddress(address) => row.(claimAddress := Some(address))
    case SetClaim(tx) => row.(claimTx := Some(tx))
    case UnsetClaim(_) => row.(claimTx := None)
    case StatusUpdate(u) =>
      row.(claimTx := Coalesce(row.claimTx, u.claimTx),
      lockupTx := Coalesce(row.lockupTx, u.lockupTx),
      mrhTx := Coalesce(row.mrhTx, u.mrhTx),
      payerAmount := if u.mrhAmount.Some? then u.mrhAmount.value else row.payerAmount,
      receiverAmount := if u.mrhAmount.Some? then u.mrhAmount.value else row.receiverAmount,
      state := u.toState)
  }

  /** The table after one statement; `version` is what the trigger writes if a row is updated. */
  function Execute(t: Table, id: SwapId, stmt: Statement, version: nat): Table {
    if id in t && Selects(stmt, t[id]) then t[id := Assign(stmt, t[id]).(version := version)] else t
  }

  function Inserted(swap: ReceiveSwap): ReceiveSwap {
    swap.(bolt12Offer := None, description := None, payerNote := None, claimAddress := None, claimTx := None,
    lockupTx := None, mrhTx := None, version := 0)
  }

  /** The columns a full-row write replaces; the MRH address and the claim fees are not among them. */
  function Overwrite(row: ReceiveSwap, swap: ReceiveSwap, version: nat): ReceiveSwap {
    swap.(mrhAddress := row.mrhAddress, claimFees := row.claimFees, version := version)
  }

  function Target(t: Table, id: SwapId, swap: ReceiveSwap): ReceiveSwap {
    if id in t then t[id] else Inserted(swap)
  }

  function Upsert(t: Table, id: SwapId, swap: ReceiveSwap, version: nat): Table {
    if Target(t, id, swap).version == swap.version
    then t[id := Overwrite(Target(t, id, swap), swap, version)]
    else t
  }

  predicate ValidTransition(from: PaymentState, to: PaymentState) {
    match to
    case Pending => from.Created? || from.Pending?
    case Complete => from.Created? || from.Pending?
    case TimedOut => from.Created? || from.TimedOut?
    case Failed => !from.Complete?
    case _ => false
  }

  /**
  A status update fills an absent claim, lockup or MRH id and no other, an MRH amount replaces both amounts,
  the state is the given one, and the rest is left alone; a claim address replaces the claim address alone.
  */
  lemma StatementColumns(row: ReceiveSwap, u: ReceiveUpdate, address: Address)
    ensures var a := Assign(StatusUpdate(u), row);
            && a.state == u.toState
            && (row.claimTx.Some? ==> a.claimTx == row.claimTx) && (row.claimTx.None? ==> a.claimTx == u.claimTx)
            && (row.lockupTx.Some? ==> a.lockupTx == row.lockupTx) && (row.lockupTx.None? ==> a.lockupTx == u.lockupTx)
            && (row.mrhTx.Some? ==> a.mrhTx == row.mrhTx) && (row.mrhTx.None? ==> a.mrhTx == u.mrhTx)
            && (u.mrhAmount.Some? ==> a.payerAmount == a.receiverAmount == u.mrhAmount.value)
            && (u.mrhAmount.None? ==> a.payerAmount == row.payerAmount && a.receiverAmount == row.receiverAmount)
            && a.(state := row.state, claimTx := row.claimTx, lockupTx := row.lockupTx, mrhTx := row.mrhTx,
               payerAmount := row.payerAmount, receiverAmount := row.receiverAmount) == row
    ensures var a := Assign(ClaimAddress(address), row);
            a.claimAddress == Some(address) && a.(claimAddress := row.claimAddress) == row
  {
  }

  /** The transitions out of each state. */
  lemma TransitionsFrom(to: PaymentState)
    ensures ValidTransition(Created, to) <==> to in {Pending, Complete, TimedOut, Failed}
    ensures ValidTransition(Pending, to) <==> to in {Pending, Complete, Failed}
    ensures ValidTransition(TimedOut, to) <==> to in {TimedOut, Failed}
    ensures ValidTransition(Complete, to) <==> false
    ensures forall from | from in {Failed, Refundable, RefundPending, WaitingFeeAcceptance} ::
              ValidTransition(from, to) <==> to == Failed
  {
  }

  /** The two tables, changed in place. */
  class ReceiveTables {
    var rows: Table
    const addresses: AddressPool.ReservedAddresses

    constructor (addresses: AddressPool.ReservedAddresses)
      ensures rows == map[] && this.addresses == addresses
    {
      rows := map[];
      this.addresses := addresses;
    }

    method Run(id: SwapId, stmt: Statement) returns (count: nat)
      modifies this
      ensures count == 0 ==> rows == old(rows) && (id !in rows || !Selects(stmt, rows[id]))
      ensures count != 0 ==> count == 1 && id in old(rows) && Selects(stmt, old(rows)[id]) && id in rows
      ensures count != 0 ==> rows[id].version > old(rows)[id].version
      ensures count != 0 ==> rows == Execute(old(rows), id, stmt, rows[id].version)
      ensures !stmt.SetClaim? && !stmt.UnsetClaim? && id in old(rows) ==> count == 1
      ensures forall k <- rows :: k != id ==> k in old(rows) && rows[k] == old(rows)[k]
    {
      count := 0;
      if id in rows && Selects(stmt, rows[id]) {
        var row := Assign(stmt, rows[id]);
        rows := rows[id := row.(version := row.version + 1)];
        count := 1;
      }
    }

    /** insert_or_update_receive_swap: a committed swap with an MRH payment holds no reservation. */
    method InsertOrUpdate(id: SwapId, swap: ReceiveSwap) returns (res: Result<(), StoreError>)
      modifies this, addresses
      ensures res.Ok? <==> (if id in old(rows) then old(rows)[id].version == swap.version else swap.version == 0)
      ensures res.Err? ==> rows == old(rows) && addresses.rows == old(addresses.rows)
      ensures res.Ok? ==> id in rows && rows[id].version > swap.version
      ensures res.Ok? ==> rows == Upsert(old(rows), id, swap, rows[id].version)
      ensures res.Ok? ==> rows[id] == swap.(mrhAddress := rows[id].mrhAddress, claimFees := rows[id].claimFees,
                                      version := rows[id].version)
      ensures res.Ok? && id in old(rows) ==>
                rows[id].mrhAddress == old(rows)[id].mrhAddress && rows[id].claimFees == old(rows)[id].claimFees
      ensures res.Ok? && id !in old(rows) ==>
                rows[id].mrhAddress == swap.mrhAddress && rows[id].claimFees == swap.claimFees
      ensures forall k :: k != id ==> (k in rows <==> k in old(rows)) && (k in rows ==> rows[k] == old(rows)[k])
      ensures res.Ok? && swap.mrhTx.Some? ==> swap.mrhAddress !in addresses.rows
      ensures forall a <- old(addresses.rows) :: a in addresses.rows || (a == swap.mrhAddress && swap.mrhTx.Some?)
      ensures forall a <- addresses.rows :: a in old(addresses.rows) && addresses.rows[a] == old(addresses.rows)[a]
    {
      var row := if id in rows then rows[id] else Inserted(swap);
      if row.version != swap.version {
        return Err(VersionMismatch);
      }
      rows := rows[id := Overwrite(row, swap, row.version + 1)];
      if swap.mrhTx.Some? {
        addresses.Delete(swap.mrhAddress);
      }
      return Ok(());
    }

    /** set_receive_swap_claim_tx_id: compare-and-set on a NULL claim id. */
    method TrySetClaim(id: SwapId, tx: TxId) returns (res: Result<(), StoreError>)
      modifies this
      ensures res.Ok? <==> id in old(rows) && old(rows)[id].claimTx.None?
      ensures res.Err? ==> rows == old(rows)
      ensures res.Ok? ==> id in rows && rows[id].claimTx == Some(tx)
      ensures res.Ok? ==> rows[id].version > old(rows)[id].version
      ensures res.Ok? ==> rows == Execute(old(rows), id, SetClaim(tx), rows[id].version)
      ensures res.Ok? ==> rows == old(rows)[id := old(rows)[id].(claimTx := Some(tx), version := rows[id].version)]
    {
      var count := Run(id, SetClaim(tx));
      res := if count == 1 then Ok(()) else Err(AlreadyClaimed);
    }

    /** unset_receive_swap_claim_tx_id: clears the claim id only if it still is the caller's own. */
    method TryUnsetClaim(id: SwapId, tx: TxId)
      modifies this
      ensures id in old(rows) && old(rows)[id].claimTx == Some(tx) ==>
                && id in rows && rows[id].claimTx.None? && rows[id].version > old(rows)[id].version
                && rows == Execute(old(rows), id, UnsetClaim(tx), rows[id].version)
                && rows == old(rows)[id := old(rows)[id].(claimTx := None, version := rows[id].version)]
      ensures !(id in old(rows) && old(rows)[id].claimTx == Some(tx)) ==> rows == old(rows)
    {
      var _ := Run(id, UnsetClaim(tx));
    }

    /** update_swap_info: the handler's validated update; an MRH payment releases the stored address. */
    method UpdateInfo(id: SwapId, u: ReceiveUpdate) returns (res: Result<(), StoreError>)
      modifies this, addresses
      ensures res.Ok? <==> id in old(rows) && ValidTransition(old(rows)[id].state, u.toState)
      ensures res.Err? ==> rows == old(rows) && addresses.rows == old(addresses.rows)
      ensures res.Ok? ==> id in rows && rows[id].version > old(rows)[id].version
      ensures res.Ok? ==> rows == Execute(old(rows), id, StatusUpdate(u), rows[id].version)
      ensures res.Ok? && u.mrhTx.Some? ==> rows[id].mrhTx.Some? && rows[id].mrhAddress !in addresses.rows
      ensures res.Ok? ==> addresses.rows == (if u.mrhTx.Some? then old(addresses.rows) - {old(rows)[id].mrhAddress}
                                             else old(addresses.rows))
    {
      if id !in rows {
        return Err(NotFound);
      }
      var swap := rows[id];
      if !ValidTransition(swap.state, u.toState) {
        return Err(InvalidTransition);
      }
      var _ := Run(id, StatusUpdate(u));
      if u.mrhTx.Some? {
        addresses.Delete(swap.mrhAddress);
      }
      return Ok(());
    }
  }
}
