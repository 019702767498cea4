/**
Refund sweeps. At every liquid block the chain handler lists the pending outgoing swaps without a
refund and tries to refund each, cooperatively or by the script path. The sweeps of a handler run one
after the other; status updates and full-row writes go on around them, between any two waits of a sweep.
The sweeps of a second process on the same database are not part of these runs.
*/
module OutgoingRefund {
  import opened Wrappers
  import opened SwapTypes
  import opened ChainStore
  import H = ChainHandler
  import R = Recovery

  /** One refund the network was asked for. */
  datatype Try = Try(cooperative: bool, height: nat, accepted: bool)

  /** Where the sweep stands with this swap; `seen` is the row it listed. */
  datatype Sweep =
    | Idle
    | Listed(height: nat, seen: ChainSwap)
    | FallingBack(height: nat, seen: ChainSwap)
    | Accepted(refundTx: TxId)

  datatype State = State(row: ChainSwap, locktime: nat, sweep: Sweep, tries: seq<Try>)

  datatype Event =
    | Begin(height: nat)
    | Refund(answer: Option<TxId>)
    | FallBack(answer: Option<TxId>)
    | Record(sqlOk: bool)
    | Update(update: ChainUpdate)
    | Overwrite(row: ChainSwap)

  /** list_pending_chain_swaps. */
  predicate Listable(state: PaymentState) {
    state.Pending? || state.RefundPending? || state.WaitingFeeAcceptance?
  }

  /** The updates issued for an outgoing swap. */
  predicate IssuedOutgoing(u: ChainUpdate) {
    && (u.toState.Pending? || u.toState.TimedOut? || u.toState.RefundPending? || u.toState.Failed?)
    && u.claimTx.None? && u.claimAddress.None?
    && (u.refundTx.Some? ==> u.toState.RefundPending?)
  }

  predicate Enabled(s: State, e: Event) {
    match e
    case Begin(_) => s.sweep.Idle? && Listable(s.row.state) && s.row.refundTx.None?
    case Refund(_) => s.sweep.Listed?
    case FallBack(_) => s.sweep.FallingBack?
    case Record(_) => s.sweep.Accepted?
    case Update(u) => IssuedOutgoing(u) && H.ValidTransition(s.row.state, u.toState)
    case Overwrite(_) => true
  }

  /** is_locktime_expired on block heights. */
  predicate Expired(s: State, height: nat) {
    height >= s.locktime
  }

  /** A refund was asked for; on failure the sweep falls back or gives up. */
  function Asked(s: State, cooperative: bool, height: nat, answer: Option<TxId>, otherwise: Sweep): State {
    s.(tries := s.tries + [Try(cooperative, height, answer.Some?)],
    sweep := if answer.Some? then Accepted(answer.value) else otherwise)
  }

  function Do(s: State, e: Event): State {
    if !Enabled(s, e) then s else
    match e
    case Begin(height) => s.(sweep := Listed(height, s.row))
    case Refund(answer) =>
      var Listed(height, seen) := s.sweep;
      if !Expired(s, height) && !seen.state.RefundPending? then s.(sweep := Idle)
      else if seen.state.Pending? then Asked(s, false, height, answer, Idle)
      else if seen.state.RefundPending? then
        Asked(s, true, height, answer, if Expired(s, height) then FallingBack(height, seen) else Idle)
      else s.(sweep := Idle)
    case FallBack(answer) => Asked(s, false, s.sweep.height, answer, Idle)
    case Record(sqlOk) =>
      var res := H.UpdateInfo(s.row, H.NO_IDS.(toState := RefundPending, refundTx := Some(s.sweep.refundTx)));
      s.(sweep := Idle, row := if sqlOk && res.Some? then res.value else s.row)
    case Update(u) => s.(row := H.UpdateInfo(s.row, u).value)
    case Overwrite(row) => s.(row := row)
  }

  function Run(s: State, events: seq<Event>): State
    decreases |events|
  {
    if events == [] then s else Run(Do(s, events[0]), events[1..])
  }

  function AcceptedCount(tries: seq<Try>): nat {
    if tries == [] then 0
    else AcceptedCount(tries[..|tries| - 1]) + if tries[|tries| - 1].accepted then 1 else 0
  }

  /** States an outgoing swap does not leave for a listable one. */
  predicate Gone(state: PaymentState) {
    state.Failed? || state.Complete? || state.TimedOut?
  }

  /** A full-row write keeps a refund id, and keeps a pending or ended swap so. */
  predicate KeepsRefund(before: ChainSwap, after: ChainSwap) {
    && (before.refundTx.Some? ==> after.refundTx.Some?)
    && (Gone(before.state) ==> Gone(after.state))
    && (Listable(before.state) ==> Listable(after.state) || Gone(after.state))
  }

  /** The recording statements succeed and the full-row writes keep what was recorded. */
  predicate Persists(s: State, e: Event) {
    && (e.Record? ==> e.sqlOk)
    && (e.Overwrite? ==> KeepsRefund(s.row, e.row))
  }

  predicate AllPersist(s: State, events: seq<Event>)
    decreases |events|
  {
    events == [] || (Persists(s, events[0]) && AllPersist(Do(s, events[0]), events[1..]))
  }

  ghost predicate Inv(s: State) {
    && LocktimeInv(s)
    && (!s.sweep.Idle? ==> Listable(s.row.state) || Gone(s.row.state))
    && AcceptedCount(s.tries) <= 1
    && (s.sweep.Accepted? ==> AcceptedCount(s.tries) == 1)
    && (s.sweep.Listed? || s.sweep.FallingBack? ==> AcceptedCount(s.tries) == 0)
    && (AcceptedCount(s.tries) == 1 ==> s.sweep.Accepted? || s.row.refundTx.Some? || Gone(s.row.state))
  }

  /** The part of the invariant that holds whatever is lost. */
  ghost predicate LocktimeInv(s: State) {
    && (forall t <- s.tries :: !t.cooperative ==> t.height >= s.locktime)
    && (s.sweep.FallingBack? ==> Expired(s, s.sweep.height))
  }

  lemma LocktimeStep(s: State, e: Event)
    requires LocktimeInv(s)
    ensures LocktimeInv(Do(s, e)) && Do(s, e).locktime == s.locktime
  {
  }

  lemma {:induction false} LocktimeRun(s: State, events: seq<Event>)
    requires LocktimeInv(s)
    ensures LocktimeInv(Run(s, events)) && Run(s, events).locktime == s.locktime
    decreases |events|
  {
    if events != [] {
      LocktimeStep(s, events[0]);
      LocktimeRun(Do(s, events[0]), events[1..]);
    }
  }

  lemma CountAppend(tries: seq<Try>, t: Try)
    ensures AcceptedCount(tries + [t]) == AcceptedCount(tries) + if t.accepted then 1 else 0
  {
    assert (tries + [t])[..|tries|] == tries;
  }

  lemma AskedPreservesInv(s: State, cooperative: bool, answer: Option<TxId>, otherwise: Sweep)
    requires Inv(s) && (s.sweep.Listed? || s.sweep.FallingBack?)
    requires !cooperative ==> Expired(s, s.sweep.height)
    requires otherwise.Idle? || (otherwise.FallingBack? && Expired(s, otherwise.height))
    ensures Inv(Asked(s, cooperative, s.sweep.height, answer, otherwise))
  {
    CountAppend(s.tries, Try(cooperative, s.sweep.height, answer.Some?));
  }

  lemma RefundPreservesInv(s: State, e: Event)
    requires Inv(s) && Enabled(s, e) && (e.Refund? || e.FallBack?)
    ensures Inv(Do(s, e))
  {
    var height, expired := s.sweep.height, Expired(s, s.sweep.height);
    if e.FallBack? {
      AskedPreservesInv(s, false, e.answer, Idle);
    } else if expired || s.sweep.seen.state.RefundPending? {
      if s.sweep.seen.state.Pending? {
        AskedPreservesInv(s, false, e.answer, Idle);
      } else if s.sweep.seen.state.RefundPending? {
        AskedPreservesInv(s, true, e.answer, if expired then FallingBack(height, s.sweep.seen) else Idle);
      }
    }
  }

  lemma RowStepPreservesInv(s: State, e: Event)
    requires Inv(s) && Enabled(s, e) && (e.Begin? || e.Update? || e.Overwrite? || e.Record?) && Persists(s, e)
    ensures Inv(Do(s, e))
  {
  }

  lemma StepPreservesInv(s: State, e: Event)
    requires Inv(s) && Persists(s, e)
    ensures Inv(Do(s, e)) && Do(s, e).locktime == s.locktime
  {
    if Enabled(s, e) {
      if e.Refund? || e.FallBack? {
        RefundPreservesInv(s, e);
      } else {
        RowStepPreservesInv(s, e);
      }
    }
  }

  lemma {:induction false} RunPreservesInv(s: State, events: seq<Event>)
    requires Inv(s) && AllPersist(s, events)
    ensures Inv(Run(s, events)) && Run(s, events).locktime == s.locktime
    decreases |events|
  {
    if events != [] {
      StepPreservesInv(s, events[0]);
      RunPreservesInv(Do(s, events[0]), events[1..]);
    }
  }

  /**
  Over any sequence of blocks, updates and full-row writes the script path is tried only past the locktime,
  and, if the recording statements succeed and the full-row writes keep what was recorded, the sweeps get at
  most one refund of the swap accepted.
  */
  lemma RefundSafety(s: State, events: seq<Event>)
    requires s.sweep.Idle? && s.tries == []
    ensures forall t <- Run(s, events).tries :: !t.cooperative ==> t.height >= s.locktime
    ensures AllPersist(s, events) ==> AcceptedCount(Run(s, events).tries) <= 1
  {
    LocktimeRun(s, events);
    if AllPersist(s, events) {
      RunPreservesInv(s, events);
    }
  }

  /** An accepted refund is recorded in state RefundPending, unless the swap has failed meanwhile. */
  lemma AcceptedIsRecorded(s: State)
    requires Inv(s) && s.sweep.Accepted?
    ensures var row := Do(s, Record(true)).row;
            if Gone(s.row.state) then row == s.row
            else row.state.RefundPending? && row.refundTx == Some(s.sweep.refundTx)
  {
  }

  // ----- When a swap is refunded twice -----

  /** A sweep at this height asks for a refund of the row. */
  predicate Due(row: ChainSwap, locktime: nat, height: nat) {
    row.refundTx.None? && (row.state.RefundPending? || (row.state.Pending? && height >= locktime))
  }

  /** The next sweep, whose first refund is accepted if it asks for one. */
  function NextSweep(height: nat, tx: TxId): seq<Event> {
    [Begin(height), Refund(Some(tx))]
  }

  lemma NextSweepRun(s: State, height: nat, tx: TxId)
    ensures Run(s, NextSweep(height, tx)) == Do(Do(s, Begin(height)), Refund(Some(tx)))
  {
    var es := NextSweep(height, tx);
    assert es[1..] == [es[1]];
    assert Run(Do(s, es[0]), [es[1]]) == Run(Do(Do(s, es[0]), es[1]), [es[1]][1..]);
  }

  lemma NextSweepRefundsIff(s: State, height: nat, tx: TxId)
    requires s.sweep.Idle?
    ensures AcceptedCount(Run(s, NextSweep(height, tx)).tries) ==
            AcceptedCount(s.tries) + if Due(s.row, s.locktime, height) then 1 else 0
  {
    NextSweepRun(s, height, tx);
    CountAppend(s.tries, Try(false, height, true));
    CountAppend(s.tries, Try(true, height, true));
  }

  /** After an accepted refund the next sweep gets a second one exactly if the record was lost and one is still due. */
  lemma RefundedTwiceIff(s: State, sqlOk: bool, height: nat, tx: TxId)
    requires Inv(s) && s.sweep.Accepted?
    ensures AcceptedCount(Run(Do(s, Record(sqlOk)), NextSweep(height, tx)).tries) == 2
            <==> !sqlOk && Due(s.row, s.locktime, height)
  {
    NextSweepRefundsIff(Do(s, Record(sqlOk)), height, tx);
  }

  /**
  A recovery of a swap whose refund is recorded makes the next sweep refund it again exactly if the chain
  does not show the refund, the grace period is over, and the state found still has one due.
  */
  lemma RecoveryRefundsAgainIff(s: State, data: R.ChainData, grace: bool, height: nat, tx: TxId)
    requires Inv(s) && s.sweep.Idle? && AcceptedCount(s.tries) == 1 && s.row.refundTx.Some?
    ensures var recovered := R.RecoverChain(s.row, data, grace);
            && (AcceptedCount(Run(Do(s, Overwrite(recovered)), NextSweep(height, tx)).tries) == 2
                <==> data.refundTx.None? && !grace && Due(recovered, s.locktime, height))
  {
    NextSweepRefundsIff(Do(s, Overwrite(R.RecoverChain(s.row, data, grace))), height, tx);
  }

  /** A sweep whose record is lost, from the start. */
  lemma LostRecordRefundsTwice(s: State)
    requires s.sweep.Idle? && s.tries == [] && s.row.state.RefundPending? && s.row.refundTx.None?
    ensures var swept := Run(s, NextSweep(s.locktime, "first"));
            AcceptedCount(Run(Do(swept, Record(false)), NextSweep(s.locktime + 1, "second")).tries) == 2
  {
    var es := NextSweep(s.locktime, "first");
    NextSweepRun(s, s.locktime, "first");
    RunPreservesInv(s, es);
    RefundedTwiceIff(Run(s, es), false, s.locktime + 1, "second");
  }

  // ----- The sweep itself -----

  /** The network's answers to the refunds of a swap, by mode. */
  type Network = (SwapId, bool) -> Option<TxId>

  /** An undisturbed sweep over one swap, as a run of the events above: what it asks, and what it records. */
  function AskedFor(id: SwapId, row: ChainSwap, locktime: nat, height: nat, network: Network): State {
    var s1 := Do(State(row, locktime, Idle, []), Begin(height));
    var s2 := Do(s1, Refund(network(id, row.state.RefundPending?)));
    Do(s2, FallBack(network(id, false)))
  }

  function Swept(id: SwapId, row: ChainSwap, locktime: nat, height: nat, network: Network): State {
    Do(AskedFor(id, row, locktime, height, network), Record(true))
  }

  /** A sweep asks for a refund exactly when one is due, and ends with it recorded if one was accepted. */
  lemma SweepAsksIff(id: SwapId, row: ChainSwap, locktime: nat, height: nat, network: Network)
    ensures var end := Swept(id, row, locktime, height, network);
            && (end.tries != [] <==> Due(row, locktime, height))
            && ((exists t <- end.tries :: t.accepted) <==> end.row.refundTx != row.refundTx)
            && (end.row != row ==> end.row.state.RefundPending? && end.row.refundTx.Some?)
            && (end.tries != [] && height >= locktime && end.row.refundTx.None? ==>
                  end.tries[|end.tries| - 1] == Try(false, height, false))
  {
    var s1 := Do(State(row, locktime, Idle, []), Begin(height));
    var s2 := Do(s1, Refund(network(id, row.state.RefundPending?)));
    var s3 := Do(s2, FallBack(network(id, false)));
    var end := Do(s3, Record(true));
    assert end.tries == s3.tries;
    if s3.sweep.Accepted? {
      assert s3.tries[|s3.tries| - 1].accepted;
    }
  }

  /** The refunds a sweep asks for, before it records. */
  lemma AskedForRun(id: SwapId, row: ChainSwap, locktime: nat, height: nat, network: Network)
    ensures var end := AskedFor(id, row, locktime, height, network);
            var coop, script, expired := network(id, true), network(id, false), height >= locktime;
            var asked := if row.refundTx.Some? then []
                         else if row.state.Pending? then if expired then [Try(false, height, script.Some?)] else []
                         else if row.state.RefundPending? then
                           if coop.None? && expired then [Try(true, height, false), Try(false, height, script.Some?)]
                           else [Try(true, height, coop.Some?)]
                         else [];
            var refund := if asked == [] || !asked[|asked| - 1].accepted then None
                          else if asked[|asked| - 1].cooperative then coop else script;
            && end.tries == asked && end.row == row
            && end.sweep == if refund.Some? then Accepted(refund.value) else Idle
  {
  }

  /**
  Which refunds a sweep asks for and in what order, and what it records: a pending swap's by the script path
  past the locktime, a RefundPending swap's cooperatively and past the locktime by the script path after that.
  */
  lemma SweepRun(id: SwapId, row: ChainSwap, locktime: nat, height: nat, network: Network)
    ensures var end := Swept(id, row, locktime, height, network);
            var coop, script, expired := network(id, true), network(id, false), height >= locktime;
            var asked := if row.refundTx.Some? then []
                         else if row.state.Pending? then if expired then [Try(false, height, script.Some?)] else []
                         else if row.state.RefundPending? then
                           if coop.None? && expired then [Try(true, height, false), Try(false, height, script.Some?)]
                           else [Try(true, height, coop.Some?)]
                         else [];
            var refund := if asked == [] || !asked[|asked| - 1].accepted then None
                          else if asked[|asked| - 1].cooperative then coop else script;
            && end.tries == asked && end.sweep.Idle?
            && end.row == if refund.Some? then row.(state := RefundPending, refundTx := refund) else row
  {
    AskedForRun(id, row, locktime, height, network);
  }

  /** The updates of an outgoing swap apply exactly if the transition is valid, and write what they carry. */
  lemma OutgoingUpdateApplies(s: State, to: PaymentState, server: Option<TxId>, user: Option<TxId>,
                              refundTx: Option<TxId>)
    requires to in {Pending, TimedOut, RefundPending, Failed} && (refundTx.Some? ==> to.RefundPending?)
    ensures var s' := Do(s, Update(ChainUpdate(to, server, user, None, None, refundTx)));
            && s'.tries == s.tries && s'.sweep == s.sweep
            && s'.row == if !H.ValidTransition(s.row.state, to) then s.row
                         else s.row.(state := to,
                              serverLockup := if s.row.serverLockup.Some? then s.row.serverLockup else server,
                              userLockup := if s.row.userLockup.Some? then s.row.userLockup else user,
                              refundTx := if refundTx.Some? then refundTx else s.row.refundTx)
  {
  }

  /** A sweep lists the swap exactly if it is pending in one of three states and has no refund id. */
  lemma ListedIff(s: State, height: nat)
    requires s.sweep.Idle?
    ensures Do(s, Begin(height)).sweep ==
            if s.row.state in {Pending, RefundPending, WaitingFeeAcceptance} && s.row.refundTx.None?
            then Listed(height, s.row) else Idle
  {
  }

  /** No update of an outgoing swap carries claim columns, or a refund id without RefundPending. */
  lemma OtherUpdatesAreNotIssued(s: State, u: ChainUpdate)
    requires u.claimTx.Some? || u.claimAddress.Some? || (u.refundTx.Some? && !u.toState.RefundPending?)
    ensures Do(s, Update(u)) == s
  {
  }

  predicate Distinct(ids: seq<SwapId>) {
    forall i, j | 0 <= i < j < |ids| :: ids[i] != ids[j]
  }

  /** The rows are the same apart from the version the trigger wrote. */
  predicate SameColumns(a: ChainSwap, b: ChainSwap) {
    a.(version := 0) == b.(version := 0)
  }

  /** The refunds of one listed swap; `swap` is the row as it was listed. */
  method AskRefund(id: SwapId, swap: ChainSwap, height: nat, locktime: nat, network: Network)
    returns (refundTx: Option<TxId>, tries: seq<Try>)
    ensures var asked := AskedFor(id, swap, locktime, height, network);
            && tries == asked.tries && asked.row == swap
            && asked.sweep == if refundTx.Some? then Accepted(refundTx.value) else Idle
    ensures refundTx.Some? ==> Listable(swap.state)
  {
    refundTx, tries := None, [];
    var expired := height >= locktime;
    if Listable(swap.state) && swap.refundTx.None? && (expired || swap.state.RefundPending?) {
      if swap.state.Pending? {
        refundTx := network(id, false);
        tries := [Try(false, height, refundTx.Some?)];
      } else if swap.state.RefundPending? {
        refundTx := network(id, true);
        tries := [Try(true, height, refundTx.Some?)];
        if refundTx.None? && expired {
          refundTx := network(id, false);
          tries := tries + [Try(false, height, refundTx.Some?)];
        }
      }
    }
  }

  /** The body of the sweep for one listed swap. */
  method RefundOne(handler: H.ChainSwapHandler, id: SwapId, swap: ChainSwap, height: nat, locktime: nat,
                   network: Network)
    returns (tries: seq<Try>)
    requires id in handler.table.rows && handler.table.rows[id] == swap
    modifies handler.table
    ensures handler.table.rows.Keys == old(handler.table.rows).Keys
    ensures forall k <- handler.table.rows :: k != id ==> handler.table.rows[k] == old(handler.table.rows)[k]
    ensures tries == Swept(id, swap, locktime, height, network).tries
    ensures SameColumns(handler.table.rows[id], Swept(id, swap, locktime, height, network).row)
  {
    var refundTx;
    refundTx, tries := AskRefund(id, swap, height, locktime, network);
    if refundTx.Some? {
      var _ := handler.UpdateSwapInfo(id, H.NO_IDS.(toState := RefundPending, refundTx := refundTx));
    }
  }

  /** refund_outgoing over the swaps listed at its start; `ids` are the outgoing swaps in the table's order. */
  method RefundOutgoing(handler: H.ChainSwapHandler, ids: seq<SwapId>, height: nat, locktime: SwapId -> nat,
                        network: Network)
    returns (tries: map<SwapId, seq<Try>>)
    requires Distinct(ids) && forall id <- ids :: id in handler.table.rows
    modifies handler.table
    ensures handler.table.rows.Keys == old(handler.table.rows).Keys
    ensures forall id <- handler.table.rows :: id !in ids ==> handler.table.rows[id] == old(handler.table.rows)[id]
    ensures forall id <- ids ::
              && id in tries
              && tries[id] == Swept(id, old(handler.table.rows)[id], locktime(id), height, network).tries
              && SameColumns(handler.table.rows[id],
                             Swept(id, old(handler.table.rows)[id], locktime(id), height, network).row)
  {
    var listed := handler.table.rows;
    tries := map[];
    for i := 0 to |ids|
      invariant handler.table.rows.Keys == listed.Keys
      invariant forall id <- listed :: id !in ids[..i] ==> handler.table.rows[id] == listed[id]
      invariant forall id <- ids[..i] ::
                  && id in tries
                  && AsSwept(id, listed[id], locktime(id), height, network, tries[id], handler.table.rows[id])
    {
      var id := ids[i];
      assert id !in ids[..i] && ids[..i + 1] == ids[..i] + [id];
      var made := RefundOne(handler, id, listed[id], height, locktime(id), network);
      tries := tries[id := made];
    }
    assert ids[..|ids|] == ids;
  }

  predicate AsSwept(id: SwapId, before: ChainSwap, locktime: nat, height: nat, network: Network,
                    tries: seq<Try>, after: ChainSwap) {
    var end := Swept(id, before, locktime, height, network);
    tries == end.tries && SameColumns(after, end.row)
  }

  // ----- Send swaps -----

  /** The columns of a send swap its refund depends on. */
  datatype SendSwap = SendSwap(state: PaymentState, refundTx: Option<TxId>)

  predicate ValidSendTransition(from: PaymentState, to: PaymentState) {
    match to
    case Created => from.TimedOut?
    case Pending => from.Created? || from.Pending?
    case Complete => from.Created? || from.Pending?
    case TimedOut => from.Created? || from.TimedOut?
    case RefundPending => from.Pending?
    case Failed => !from.Complete?
    case _ => false
  }

  /** The validated update of a send swap; a stored refund id is not overwritten. */
  function UpdateSend(row: SendSwap, to: PaymentState, refundTx: Option<TxId>): SendSwap {
    if ValidSendTransition(row.state, to) then SendSwap(to, Coalesce(row.refundTx, refundTx)) else row
  }

  /**
  One swap in try_refund_all: `listed` is the row as it was listed, `stored` the row when the answer comes.
  A swap is not expired before it is ten minutes old.
  */
  function SweepSend(listed: SendSwap, stored: SendSwap, locktime: nat, height: nat, aged: bool,
                     coop: Option<TxId>, script: Option<TxId>): (SendSwap, seq<Try>) {
    var expired := aged && height >= locktime;
    if || listed.refundTx.Some?
       || (!expired && listed.state.Pending?)
       || !(listed.state.Pending? || listed.state.RefundPending?)
    then (stored, [])
    else if listed.state.Pending? then
      (if script.Some? then UpdateSend(stored, RefundPending, script) else stored, [Try(false, height, script.Some?)])
    else
      var refundTx := if coop.None? && expired then script else coop;
      (if refundTx.Some? then UpdateSend(stored, RefundPending, refundTx) else stored,
       [Try(true, height, coop.Some?)] + if coop.None? && expired then [Try(false, height, script.Some?)] else [])
  }

  lemma OneTry(t: Try)
    ensures AcceptedCount([t]) == if t.accepted then 1 else 0
  {
    CountAppend([], t);
    assert [] + [t] == [t];
  }

  lemma TwoTries(t: Try, u: Try)
    ensures AcceptedCount([t, u]) == (if t.accepted then 1 else 0) + if u.accepted then 1 else 0
  {
    OneTry(t);
    CountAppend([t], u);
    assert [t] + [u] == [t, u];
  }

  /**
  Which refunds a sweep of send swaps asks for, and what it records: nothing before the locktime or the tenth
  minute for a pending swap, and a refund id only in a stored swap that is pending and has none.
  */
  lemma SendSweepRun(listed: SendSwap, stored: SendSwap, locktime: nat, height: nat, aged: bool,
                     coop: Option<TxId>, script: Option<TxId>)
    ensures var (row', tries) := SweepSend(listed, stored, locktime, height, aged, coop, script);
            var expired := aged && height >= locktime;
            var asked := if listed.refundTx.Some? then []
                         else if listed.state.Pending? then if expired then [Try(false, height, script.Some?)] else []
                         else if listed.state.RefundPending? then
                           if coop.None? && expired then [Try(true, height, false), Try(false, height, script.Some?)]
                           else [Try(true, height, coop.Some?)]
                         else [];
            var refund := if asked == [] || !asked[|asked| - 1].accepted then None
                          else if asked[|asked| - 1].cooperative then coop else script;
            && tries == asked
            && row' == if refund.Some? && stored.state.Pending?
                       then SendSwap(RefundPending, if stored.refundTx.Some? then stored.refundTx else refund)
                       else stored
  {
  }

  /** The transitions of a send swap out of each state. */
  lemma SendTransitionsFrom(to: PaymentState)
    ensures ValidSendTransition(Created, to) <==> to in {Pending, Complete, TimedOut, Failed}
    ensures ValidSendTransition(Pending, to) <==> to in {Pending, RefundPending, Complete, Failed}
    ensures ValidSendTransition(TimedOut, to) <==> to in {TimedOut, Created, Failed}
    ensures ValidSendTransition(Complete, to) <==> false
    ensures forall from | from in {Refundable, RefundPending, Failed, WaitingFeeAcceptance} ::
              ValidSendTransition(from, to) <==> to == Failed
  {
  }

  /** A valid update of a send swap writes the state and fills an absent refund id; any other changes nothing. */
  lemma SendUpdateColumns(row: SendSwap, to: PaymentState, refundTx: Option<TxId>)
    ensures UpdateSend(row, to, refundTx) ==
            if !ValidSendTransition(row.state, to) then row
            else SendSwap(to, if row.refundTx.Some? then row.refundTx else refundTx)
  {
  }

  /**
  The script path is tried only past the locktime, and at most one refund is accepted, which is recorded
  exactly if the stored swap is then Pending and has no refund id.
  */
  lemma SendSweepSafety(listed: SendSwap, stored: SendSwap, locktime: nat, height: nat, aged: bool,
                        coop: Option<TxId>, script: Option<TxId>)
    ensures var (row', tries) := SweepSend(listed, stored, locktime, height, aged, coop, script);
            && (forall t <- tries :: !t.cooperative ==> aged && t.height == height >= locktime)
            && AcceptedCount(tries) <= 1
            && (AcceptedCount(tries) == 1 ==> (row'.refundTx != stored.refundTx <==> stored == SendSwap(Pending, None)))
            && (AcceptedCount(tries) == 1 ==> row' == stored || row'.state.RefundPending?)
            && (AcceptedCount(tries) == 0 ==> row' == stored)
  {
    var tries := SweepSend(listed, stored, locktime, height, aged, coop, script).1;
    if |tries| == 1 {
      assert tries == [tries[0]];
      OneTry(tries[0]);
    } else if |tries| == 2 {
      assert tries == [tries[0], tries[1]];
      TwoTries(tries[0], tries[1]);
    }
  }

  function SweepsSend(row: SendSwap, locktime: nat, heights: seq<nat>, coop: TxId): (SendSwap, seq<Try>)
    decreases |heights|
  {
    if heights == [] then (row, []) else
    var (row1, tries1) := SweepSend(row, row, locktime, heights[0], true, Some(coop), None);
    var (row2, tries2) := SweepsSend(row1, locktime, heights[1..], coop);
    (row2, tries1 + tries2)
  }

  /** A RefundPending send swap is refunded again at every block: the sweeps never record its refund. */
  lemma {:induction false} PeriodicSendRefundNotRecorded(row: SendSwap, locktime: nat, heights: seq<nat>, coop: TxId)
    requires row.state.RefundPending? && row.refundTx.None?
    ensures var (row', tries) := SweepsSend(row, locktime, heights, coop);
            row' == row && |tries| == |heights| && forall t <- tries :: t.accepted
    decreases |heights|
  {
    if heights != [] {
      PeriodicSendRefundNotRecorded(row, locktime, heights[1..], coop);
    }
  }

  function UpdatesSend(row: SendSwap, updates: seq<(PaymentState, Option<TxId>)>): SendSwap
    decreases |updates|
  {
    if updates == [] then row else UpdatesSend(UpdateSend(row, updates[0].0, updates[0].1), updates[1..])
  }

  /** A complete send swap stays complete; a recorded refund id is never replaced. */
  lemma {:induction false} SendRunInvariant(row: SendSwap, updates: seq<(PaymentState, Option<TxId>)>)
    ensures row.state.Complete? ==> UpdatesSend(row, updates) == row
    ensures row.refundTx.Some? ==> UpdatesSend(row, updates).refundTx == row.refundTx
    decreases |updates|
  {
    if updates != [] {
      SendRunInvariant(UpdateSend(row, updates[0].0, updates[0].1), updates[1..]);
    }
  }
}
