/**
The `chain_swaps` table. Every SQL statement or transaction is one atomic change of the table; the
update trigger is known only to give the row a larger version.
*/
module ChainStore {
  import opened Wrappers
  import opened SwapTypes

  type Table = map<SwapId, ChainSwap>

  /** The single-row UPDATE statements that are not guarded by a version. */
  datatype Statement =
    | AcceptZeroConf(flag: bool)
    | ActualPayerAmount(amount: nat)
    | AcceptedReceiverAmount(accepted: Option<nat>)
    | RefundAddress(address: Address)
    | AutoAcceptedFees
    | SetClaim(claimAddress: Option<Address>, claimTx: TxId)
    | UnsetClaim(ownTx: TxId)
    | StatusUpdate(update: ChainUpdate)

  datatype StoreError = VersionMismatch | AlreadyClaimed

  /** The WHERE clause, apart from the id. */
  predicate Selects(stmt: Statement, row: ChainSwap) {
    match stmt
    case SetClaim(_, _) => row.claimTx.None?
    case UnsetClaim(ownTx) => row.claimTx == Some(ownTx)
    case _ => true
  }

  /** The SET clause. */
  function Assign(stmt: Statement, row: ChainSwap): ChainSwap {
    match stmt
    case AcceptZeroConf(flag) => row.(acceptZeroConf := flag)
    case ActualPayerAmount(amount) => row.(actualPayer := Some(amount))
    case AcceptedReceiverAmount(accepted) => row.(acceptedReceiver := accepted)
    case RefundAddress(address) => row.(refundAddress := Some(address))
    case AutoAcceptedFees => row.(autoAccepted := true)
    case SetClaim(address, tx) => row.(claimAddress := address, claimTx := Some(tx))
    case UnsetClaim(_) => row.(claimTx := None)
    case StatusUpdate(u) =>
      row.(serverLockup := Coalesce(row.serverLockup, u.serverLockup),
      userLockup := Coalesce(row.userLockup, u.userLockup),
      claimAddress := Coalesce(row.claimAddress, u.claimAddress),
      claimTx := Coalesce(row.claimTx, u.claimTx),
      refundTx := Coalesce(u.refundTx, row.refundTx),
      state := u.toState)
  }

  /** The table after one statement; `version` is what the trigger writes if a row is updated. */
  function Execute(t: Table, id: SwapId, stmt: Statement, version: nat): Table {
    if id in t && Selects(stmt, t[id]) then t[id := Assign(stmt, t[id]).(version := version)] else t
  }

  /** A row as the INSERT of a full-row write leaves it: the columns it does not list are NULL or default. */
  function Inserted(swap: ChainSwap): ChainSwap {
    ChainSwap(swap.terms, None, swap.acceptZeroConf, None, None, None, None, None, None, "", swap.state,
              None, None, false, 0)
  }

  /** The columns a full-row write replaces; `auto_accepted_fees` and the terms are not among them. */
  function Overwrite(row: ChainSwap, swap: ChainSwap, version: nat): ChainSwap {
    swap.(terms := row.terms, autoAccepted := row.autoAccepted, version := version)
  }

  /** The row a full-row write has to match: the stored one, or the one its own INSERT just made. */
  function Target(t: Table, id: SwapId, swap: ChainSwap): ChainSwap {
    if id in t then t[id] else Inserted(swap)
  }

  /** The table after a full-row write; a version mismatch rolls the transaction back. */
  function Upsert(t: Table, id: SwapId, swap: ChainSwap, version: nat): Table {
    if Target(t, id, swap).version == swap.version
    then t[id := Overwrite(Target(t, id, swap), swap, version)]
    else t
  }

  /** A single-column statement writes its value, and putting the old value back gives the old row. */
  lemma SingleColumnStatements(row: ChainSwap, flag: bool, amount: nat, accepted: Option<nat>, address: Address)
    ensures var a := Assign(AcceptZeroConf(flag), row);
            a.acceptZeroConf == flag && a.(acceptZeroConf := row.acceptZeroConf) == row
    ensures var a := Assign(ActualPayerAmount(amount), row);
            a.actualPayer == Some(amount) && a.(actualPayer := row.actualPayer) == row
    ensures var a := Assign(AcceptedReceiverAmount(accepted), row);
            a.acceptedReceiver == accepted && a.(acceptedReceiver := row.acceptedReceiver) == row
    ensures var a := Assign(RefundAddress(address), row);
            a.refundAddress == Some(address) && a.(refundAddress := row.refundAddress) == row
    ensures var a := Assign(AutoAcceptedFees, row);
            a.autoAccepted && a.(autoAccepted := row.autoAccepted) == row
  {
  }

  function RunUpdates(row: ChainSwap, updates: seq<ChainUpdate>): ChainSwap {
    if updates == [] then row
    else Assign(StatusUpdate(updates[|updates| - 1]), RunUpdates(row, updates[..|updates| - 1]))
  }

  /** The stored value or the first one given. */
  function FirstGiven(start: Option<TxId>, updates: seq<ChainUpdate>, column: ChainUpdate -> Option<TxId>): Option<TxId>
    decreases |updates|
  {
    if start.Some? || updates == [] then start else FirstGiven(column(updates[0]), updates[1..], column)
  }

  lemma {:induction false} FirstGivenSnoc(start: Option<TxId>, updates: seq<ChainUpdate>, last: ChainUpdate,
                                          column: ChainUpdate -> Option<TxId>)
    ensures FirstGiven(start, updates + [last], column) == Coalesce(FirstGiven(start, updates, column), column(last))
    decreases |updates|
  {
    if start.None? && updates != [] {
      assert (updates + [last])[1..] == updates[1..] + [last];
      FirstGivenSnoc(column(updates[0]), updates[1..], last, column);
    }
  }

  /** Over any sequence of status updates lockup ids, claim id and claim address keep the first value given. */
  lemma {:induction false} UpdatesKeepFirstIds(row: ChainSwap, updates: seq<ChainUpdate>)
    ensures var end := RunUpdates(row, updates);
            && end.serverLockup == FirstGiven(row.serverLockup, updates, (u: ChainUpdate) => u.serverLockup)
            && end.userLockup == FirstGiven(row.userLockup, updates, (u: ChainUpdate) => u.userLockup)
            && end.claimTx == FirstGiven(row.claimTx, updates, (u: ChainUpdate) => u.claimTx)
            && end.claimAddress == FirstGiven(row.claimAddress, updates, (u: ChainUpdate) => u.claimAddress)
    decreases |updates|
  {
    if updates != [] {
      var most, last := updates[..|updates| - 1], updates[|updates| - 1];
      assert updates == most + [last];
      UpdatesKeepFirstIds(row, most);
      FirstGivenSnoc(row.serverLockup, most, last, (u: ChainUpdate) => u.serverLockup);
      FirstGivenSnoc(row.userLockup, most, last, (u: ChainUpdate) => u.userLockup);
      FirstGivenSnoc(row.claimTx, most, last, (u: ChainUpdate) => u.claimTx);
      FirstGivenSnoc(row.claimAddress, most, last, (u: ChainUpdate) => u.claimAddress);
    }
  }

  /** A refund id is the last one given. */
  lemma {:induction false} LastRefundGiven(row: ChainSwap, updates: seq<ChainUpdate>, i: nat)
    requires i < |updates| && updates[i].refundTx.Some?
    requires forall k | i < k < |updates| :: updates[k].refundTx.None?
    ensures RunUpdates(row, updates).refundTx == updates[i].refundTx
    decreases |updates|
  {
    var n := |updates| - 1;
    if i < n {
      assert updates[..n][i] == updates[i];
      LastRefundGiven(row, updates[..n], i);
    }
  }

  /** Without one in the updates it is the stored one. */
  lemma {:induction false} NoRefundGiven(row: ChainSwap, updates: seq<ChainUpdate>)
    requires forall k | 0 <= k < |updates| :: updates[k].refundTx.None?
    ensures RunUpdates(row, updates).refundTx == row.refundTx
    decreases |updates|
  {
    if updates != [] {
      NoRefundGiven(row, updates[..|updates| - 1]);
    }
  }

  /** The state is the last one given; only the state, the ids and the claim address are touched. */
  lemma {:induction false} OtherColumns(row: ChainSwap, updates: seq<ChainUpdate>)
    ensures var end := RunUpdates(row, updates);
            && (updates != [] ==> end.state == updates[|updates| - 1].toState)
            && end.(serverLockup := row.serverLockup, userLockup := row.userLockup, claimAddress := row.claimAddress,
               claimTx := row.claimTx, refundTx := row.refundTx, state := row.state) == row
    decreases |updates|
  {
    if updates != [] {
      OtherColumns(row, updates[..|updates| - 1]);
    }
  }

  /** The table object, changed in place by its methods. */
  class ChainSwapTable {
    var rows: Table

    constructor ()
      ensures rows == map[]
    {
      rows := map[];
    }

    /** Runs a statement and reports the number of rows affected. */
    method Run(id: SwapId, stmt: Statement) returns (count: nat)
      modifies this
      ensures count == 0 ==> rows == old(rows) && (id !in rows || !Selects(stmt, rows[id]))
      ensures count != 0 ==> count == 1 && id in old(rows) && Selects(stmt, old(rows)[id]) && id in rows
      ensures count != 0 ==> rows[id].version > old(rows)[id].version
      ensures count != 0 ==> rows == Execute(old(rows), id, stmt, rows[id].version)
      ensures !stmt.SetClaim? && !stmt.UnsetClaim? && id in old(rows) ==> count == 1
      ensures forall k <- rows :: k != id ==> k in old(rows) && rows[k] == old(rows)[k]
    {
      count := 0;
      if id in rows && Selects(stmt, rows[id]) {
        var row := Assign(stmt, rows[id]);
        rows := rows[id := row.(version := row.version + 1)];
        count := 1;
      }
    }

    /** insert_or_update_chain_swap: succeeds exactly when the caller saw the stored version. */
    method InsertOrUpdate(id: SwapId, swap: ChainSwap) returns (res: Result<(), StoreError>)
      modifies this
      ensures res.Ok? <==> (if id in old(rows) then old(rows)[id].version == swap.version else swap.version == 0)
      ensures res.Err? ==> rows == old(rows)
      ensures res.Ok? ==> id in rows && rows[id].version > swap.version
      ensures res.Ok? ==> rows == Upsert(old(rows), id, swap, rows[id].version)
      ensures res.Ok? ==> rows[id] == swap.(terms := rows[id].terms, autoAccepted := rows[id].autoAccepted,
                                      version := rows[id].version)
      ensures res.Ok? && id in old(rows) ==>
                rows[id].autoAccepted == old(rows)[id].autoAccepted && rows[id].terms == old(rows)[id].terms
      ensures res.Ok? && id !in old(rows) ==> !rows[id].autoAccepted && rows[id].terms == swap.terms
      ensures forall k :: k != id ==> (k in rows <==> k in old(rows)) && (k in rows ==> rows[k] == old(rows)[k])
    {
      var row := if id in rows then rows[id] else Inserted(swap);
      if row.version != swap.version {
        return Err(VersionMismatch);
      }
      rows := rows[id := Overwrite(row, swap, row.version + 1)];
      return Ok(());
    }

    /** set_chain_swap_claim: compare-and-set on a NULL claim id. */
    method TrySetClaim(id: SwapId, address: Option<Address>, tx: TxId) returns (res: Result<(), StoreError>)
      modifies this
      ensures res.Ok? <==> id in old(rows) && old(rows)[id].claimTx.None?
      ensures res.Err? ==> rows == old(rows)
      ensures res.Ok? ==> id in rows && rows[id].claimTx == Some(tx) && rows[id].claimAddress == address
      ensures res.Ok? ==> rows[id].version > old(rows)[id].version
      ensures res.Ok? ==> rows == Execute(old(rows), id, SetClaim(address, tx), rows[id].version)
      ensures res.Ok? ==> rows == old(rows)[id := old(rows)[id].(claimTx := Some(tx), claimAddress := address,
                                                     version := rows[id].version)]
    {
      var count := Run(id, SetClaim(address, tx));
      res := if count == 1 then Ok(()) else Err(AlreadyClaimed);
    }

    /** unset_chain_swap_claim_tx_id: clears the claim id only if it still is the caller's own. */
    method TryUnsetClaim(id: SwapId, tx: TxId)
      modifies this
      ensures id in old(rows) && old(rows)[id].claimTx == Some(tx) ==>
                && id in rows && rows[id].claimTx.None? && rows[id].version > old(rows)[id].version
                && rows == Execute(old(rows), id, UnsetClaim(tx), rows[id].version)
                && rows == old(rows)[id := old(rows)[id].(claimTx := None, version := rows[id].version)]
      ensures !(id in old(rows) && old(rows)[id].claimTx == Some(tx)) ==> rows == old(rows)
    {
      var _ := Run(id, UnsetClaim(tx));
    }
  }
}
