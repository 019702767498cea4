/** The claim protocol on the `receive_swaps` table, with recovery and real-time sync as its full-row writers. */
module ReceiveClaims {
  import opened Wrappers
  import opened SwapTypes
  import opened ReceiveStore
  import P = ClaimProtocol
  import R = Recovery
  import T = TableClaims

  /** How a full-row writer computes its proposal from the row it read. */
  datatype Rewrite =
    | Recovered(data: R.ReceiveData, grace: bool)
    | Pulled(remote: ReceiveSwap, data: R.ReceiveData)

  function Propose(rewrite: Rewrite, seen: ReceiveSwap): ReceiveSwap {
    match rewrite
    case Recovered(data, grace) => R.RecoverReceive(seen, data, grace)
    case Pulled(remote, data) => R.PullReceive(remote, seen.version, data)
  }

  /** When a full-row write keeps a stored claim id, in terms of what recovery found. */
  predicate Sound(rewrite: Rewrite, seen: ReceiveSwap) {
    match rewrite
    case Recovered(data, grace) => data.claimTx == seen.claimTx || (grace && data.claimTx.None?)
    case Pulled(_, data) => data.claimTx == seen.claimTx
  }

  const STORE: T.Store<ReceiveSwap, Statement, Rewrite> := T.Store(
    (row: ReceiveSwap) => P.Cell(row.claimTx, row.version),
    Execute,
    Upsert,
    (_, tx) => SetClaim(tx),
    tx => UnsetClaim(tx),
    (stmt: Statement) => stmt.SetClaim? || stmt.UnsetClaim?,
    (stmt: Statement) => if stmt.StatusUpdate? then stmt.update.claimTx else None,
    Propose,
    Sound)

  lemma ClaimStatementsAreLawful(table: Table, id: SwapId, address: Option<Address>, tx: TxId, version: nat)
    ensures T.SetClaimLaw(STORE, table, id, address, tx, version) && T.UnsetClaimLaw(STORE, table, id, tx, version)
  {
  }

  lemma StatementIsLawful(table: Table, id: SwapId, stmt: Statement, version: nat)
    ensures T.StatementLaw(STORE, table, id, stmt, version)
  {
  }

  lemma UpsertIsLawful(table: Table, id: SwapId, swap: ReceiveSwap, version: nat)
    ensures T.UpsertLaw(STORE, table, id, swap, version)
  {
  }

  lemma RewriteIsLawful(rewrite: Rewrite, seen: ReceiveSwap)
    ensures T.RewriteLaw(STORE, rewrite, seen)
  {
    match rewrite
    case Recovered(data, grace) => R.ReceiveRecoveryKeepsClaimIff(seen, data, grace);
    case Pulled(_, _) =>
  }

  lemma StatementsAreLawful()
    ensures forall table, id, address, tx, version :: T.SetClaimLaw(STORE, table, id, address, tx, version)
    ensures forall table, id, tx, version :: T.UnsetClaimLaw(STORE, table, id, tx, version)
    ensures forall table, id, stmt, version :: T.StatementLaw(STORE, table, id, stmt, version)
  {
    forall table, id, address, tx, version ensures T.SetClaimLaw(STORE, table, id, address, tx, version) {
      ClaimStatementsAreLawful(table, id, address, tx, version);
    }
    forall table, id, tx, version ensures T.UnsetClaimLaw(STORE, table, id, tx, version) {
      ClaimStatementsAreLawful(table, id, None, tx, version);
    }
    forall table, id, stmt, version ensures T.StatementLaw(STORE, table, id, stmt, version) {
      StatementIsLawful(table, id, stmt, version);
    }
  }

  lemma WritersAreLawful()
    ensures forall table, id, swap, version :: T.UpsertLaw(STORE, table, id, swap, version)
    ensures forall rewrite, seen :: T.RewriteLaw(STORE, rewrite, seen)
  {
    forall table, id, swap, version ensures T.UpsertLaw(STORE, table, id, swap, version) {
      UpsertIsLawful(table, id, swap, version);
    }
    forall rewrite, seen ensures T.RewriteLaw(STORE, rewrite, seen) {
      RewriteIsLawful(rewrite, seen);
    }
  }

  /** The store's statements and writers are as the protocol needs them. */
  lemma StoreIsLawful()
    ensures T.Lawful(STORE)
  {
    StatementsAreLawful();
    WritersAreLawful();
  }

  /** The statements besides those of the protocol are all of the others, and the writers are recovery and sync. */
  lemma StoreIsTheTable(table: Table, id: SwapId, stmt: Statement, swap: ReceiveSwap, version: nat, rewrite: Rewrite)
    ensures STORE.claims(stmt) <==> stmt.SetClaim? || stmt.UnsetClaim?
    ensures STORE.execute(table, id, stmt, version) == Execute(table, id, stmt, version)
    ensures STORE.upsert(table, id, swap, version) == Upsert(table, id, swap, version)
    ensures rewrite.Recovered? ==> STORE.propose(rewrite, swap) == R.RecoverReceive(swap, rewrite.data, rewrite.grace)
    ensures rewrite.Pulled? ==>
              STORE.propose(rewrite, swap) == R.PullReceive(rewrite.remote, swap.version, rewrite.data)
  {
  }

  type Event = T.Event<ReceiveSwap, Statement, Rewrite>

  function Run(events: seq<Event>): T.World<ReceiveSwap> {
    T.Run(STORE, T.Empty(), events)
  }

  /** In every run of the table one task at most is claiming a swap, and the row carries its id. */
  lemma RowCarriesTheClaimInFlight(events: seq<Event>, t: P.TaskId, u: P.TaskId)
    requires T.AllSound(STORE, T.Empty(), events)
    ensures var w := Run(events);
            && (P.InWindow(w.sys, t) ==> P.Owns(T.Columns(STORE, w.table), w.sys.tasks[t].id, w.sys.tasks[t].pc.tx))
            && (P.InWindow(w.sys, t) && P.InWindow(w.sys, u) && w.sys.tasks[t].id == w.sys.tasks[u].id ==> t == u)
  {
    StoreIsLawful();
    T.RowCarriesTheClaimInFlight(STORE, events, t, u);
  }

  /** A claim the network accepted stays in the table for the rest of every run, and no other one is broadcast. */
  lemma AcceptedClaimStaysStored(before: seq<Event>, after: seq<Event>, c: P.Broadcast)
    requires T.AllSound(STORE, T.Empty(), before + after) && c in Run(before).sys.log
    ensures var w := Run(before + after);
            P.Owns(T.Columns(STORE, w.table), c.id, c.tx) && P.OnlyClaim(w.sys, c)
  {
    StoreIsLawful();
    T.AcceptedClaimStaysStored(STORE, before, after, c);
  }

  /**
  A sync, or a recovery outside the grace period, whose onchain data does not show the accepted claim of a
  swap makes a second one be broadcast, which the network accepts or whose rollback leaves the row without
  any claim id.
  */
  lemma UnshownClaimIsClaimedAgain(id: SwapId, swap: ReceiveSwap, rewrite: Rewrite, accepted: bool)
    requires swap.claimTx.None? && swap.version == 0
    requires rewrite.data.claimTx.None? && (rewrite.Pulled? || !rewrite.grace)
    ensures var w := Run(T.ClaimedAgain(id, swap, rewrite, accepted));
            && w.sys.log == [P.Broadcast(id, "first")] + (if accepted then [P.Broadcast(id, "second")] else [])
            && id in w.table && w.table[id].claimTx == if accepted then Some("second") else None
  {
    StoreIsLawful();
    assert T.Drops(STORE, rewrite);
    T.DroppedClaimIsClaimedAgain(STORE, id, swap, rewrite, accepted);
    var w := Run(T.ClaimedAgain(id, swap, rewrite, accepted));
    assert id in T.Columns(STORE, w.table);
  }
}
