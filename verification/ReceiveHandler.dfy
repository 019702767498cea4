/**
The receive swap handler over one swap, whose claims start from three places: a lockup announced in the
mempool, a lockup announced as confirmed, and the rescan at every block. Tasks hold the row they read
while they wait for the network. Recovery and sync come in as full-row writes, which also bring in MRH ids;
the handlers themselves pass none. The version column plays no role here.
*/
module ReceiveHandler {
  import opened Wrappers
  import opened SwapTypes
  import opened ReceiveStore
  import R = Recovery

  type TaskId = nat

  /**
  A lockup transaction under the id it was announced or looked up by: its standing on the chain, whether an
  input signals replacement (Summary section of BIP 125), and what its first output to the swap script pays,
  if there is one that can be unblinded.
  Nothing here says that the content of a mempool lockup hashes to the announced id, and after a successful
  broadcast the handler does not compare them.
  */
  datatype LockupTx = LockupTx(id: TxId, confirmed: bool, rbf: bool, value: Option<nat>)

  /** verify_lockup_tx_amount. */
  predicate PaysEnough(swap: ReceiveSwap, tx: LockupTx) {
    tx.value.Some? && tx.value.value >= swap.receiverAmount + swap.claimFees
  }

  /** A claim attempt and what it rests on. */
  datatype Attempt = Attempt(read: ReceiveSwap, tx: LockupTx, zeroConf: bool)

  datatype Pc =
    | Seeing(tx: LockupTx)
    | Deciding(tx: LockupTx)
    | Confirming(tx: LockupTx)
    | Rescanning(id: TxId)
    | Claiming(why: Attempt)
    | Done

  datatype Task = Task(read: ReceiveSwap, pc: Pc)

  datatype State = State(row: ReceiveSwap, zeroConfMax: nat, tasks: map<TaskId, Task>, attempts: seq<Attempt>)

  datatype Event =
    | OnMempool(task: TaskId, tx: Option<LockupTx>)
    | See(task: TaskId, seen: bool)
    | Decide(task: TaskId, sqlOk: bool)
    | OnConfirmed(task: TaskId, tx: Option<LockupTx>)
    | Confirm(task: TaskId, matches: bool, sqlOk: bool)
    | OnBlock(task: TaskId)
    | Rescan(task: TaskId, found: Option<LockupTx>, sqlOk: bool)
    | Claim(task: TaskId)
    | SetClaimId(claimTx: TxId)
    | UnsetClaimId(claimTx: TxId)
    | Fail
    | Address(address: SwapTypes.Address)
    | Overwrite(row: ReceiveSwap)

  /** update_swap_info on the stored row; the row stays as it is if the update is refused. */
  function UpdateInfo(row: ReceiveSwap, u: ReceiveUpdate): ReceiveSwap {
    if ValidTransition(row.state, u.toState) then Assign(StatusUpdate(u), row) else row
  }

  const FAILED := ReceiveUpdate(Failed, None, None, None, None)
  const PENDING := ReceiveUpdate(Pending, None, None, None, None)

  predicate Enabled(s: State, e: Event) {
    match e
    case OnMempool(t, _) => t !in s.tasks
    case See(t, _) => t in s.tasks && s.tasks[t].pc.Seeing?
    case Decide(t, _) => t in s.tasks && s.tasks[t].pc.Deciding?
    case OnConfirmed(t, _) => t !in s.tasks
    case Confirm(t, _, _) => t in s.tasks && s.tasks[t].pc.Confirming?
    case OnBlock(t) => t !in s.tasks
    case Rescan(t, found, _) =>
      t in s.tasks && s.tasks[t].pc.Rescanning? && (found.Some? ==> found.value.id == s.tasks[t].pc.id)
    case Claim(t) => t in s.tasks && s.tasks[t].pc.Claiming?
    case SetClaimId(_) => s.attempts != [] && s.row.claimTx.None?
    case UnsetClaimId(tx) => s.row.claimTx == Some(tx)
    case Fail => true
    case Address(_) => true
    case Overwrite(_) => true
  }

  function Jump(s: State, t: TaskId, pc: Pc): State
    requires t in s.tasks
  {
    s.(tasks := s.tasks[t := s.tasks[t].(pc := pc)])
  }

  function Start(s: State, t: TaskId, pc: Pc): State {
    s.(tasks := s.tasks[t := Task(s.row, pc)])
  }

  function Do(s: State, e: Event): State {
    if !Enabled(s, e) then s else
    match e
    case OnMempool(t, tx) =>
      Start(s, t, if tx.Some? && s.row.claimTx.None? && s.row.mrhTx.None? then Seeing(tx.value) else Done)
    case See(t, seen) => Jump(s, t, if seen then Deciding(s.tasks[t].pc.tx) else Done)
    case Decide(t, sqlOk) => DoDecide(s, t, sqlOk)
    case OnConfirmed(t, tx) => Start(s, t, if tx.Some? && s.row.mrhTx.None? then Confirming(tx.value) else Done)
    case Confirm(t, matches, sqlOk) => DoConfirm(s, t, matches, sqlOk)
    case OnBlock(t) =>
      Start(s, t, if (s.row.state.Created? || s.row.state.Pending?) && s.row.lockupTx.Some? && s.row.claimTx.None?
            then Rescanning(s.row.lockupTx.value) else Done)
    case Rescan(t, found, sqlOk) => DoRescan(s, t, found, sqlOk)
    case Claim(t) => Jump(s, t, Done).(attempts := s.attempts + [s.tasks[t].pc.why])
    case SetClaimId(tx) => s.(row := Assign(SetClaim(tx), s.row))
    case UnsetClaimId(tx) => s.(row := Assign(UnsetClaim(tx), s.row))
    case Fail => s.(row := UpdateInfo(s.row, FAILED))
    case Address(a) => s.(row := Assign(ClaimAddress(a), s.row))
    case Overwrite(row) => s.(row := row)
  }

  /** The row after a failed amount check. */
  function Underpaid(s: State, t: TaskId, sqlOk: bool): State
    requires t in s.tasks
  {
    Jump(s, t, Done).(row := if sqlOk then UpdateInfo(s.row, FAILED) else s.row)
  }

  /** A lockup seen in the mempool: recorded if it pays enough, and claimed if zero-conf is acceptable. */
  function DoDecide(s: State, t: TaskId, sqlOk: bool): State
    requires Enabled(s, Decide(t, sqlOk))
  {
    var Task(read, Deciding(tx)) := s.tasks[t];
    if !PaysEnough(read, tx) then Underpaid(s, t, sqlOk)
    else if !sqlOk || !ValidTransition(s.row.state, Pending) then Jump(s, t, Done)
    else
      Jump(s, t, if read.receiverAmount <= s.zeroConfMax && !tx.rbf then Claiming(Attempt(read, tx, true)) else Done)
      .(row := UpdateInfo(s.row, PENDING.(lockupTx := Some(tx.id))))
  }

  /** A lockup announced as confirmed. */
  function DoConfirm(s: State, t: TaskId, matches: bool, sqlOk: bool): State
    requires Enabled(s, Confirm(t, matches, sqlOk))
  {
    var Task(read, Confirming(tx)) := s.tasks[t];
    if !matches || !tx.confirmed then Jump(s, t, Done)
    else if !PaysEnough(read, tx) then Underpaid(s, t, sqlOk)
    else if read.claimTx.Some? || !sqlOk || !ValidTransition(s.row.state, Pending) then Jump(s, t, Done)
    else Jump(s, t, Claiming(Attempt(read, tx, false))).(row := UpdateInfo(s.row, PENDING))
  }

  /** The recorded lockup, looked up at a new block. */
  function DoRescan(s: State, t: TaskId, found: Option<LockupTx>, sqlOk: bool): State
    requires Enabled(s, Rescan(t, found, sqlOk))
  {
    if found.None? || !found.value.confirmed then Jump(s, t, Done)
    else if !PaysEnough(s.tasks[t].read, found.value) then Underpaid(s, t, sqlOk)
    else Jump(s, t, Claiming(Attempt(s.tasks[t].read, found.value, false)))
  }

  function Run(s: State, events: seq<Event>): State
    decreases |events|
  {
    if events == [] then s else Run(Do(s, events[0]), events[1..])
  }

  predicate Initial(s: State) {
    && s.row.state.Created? && s.row.claimTx.None? && s.row.lockupTx.None? && s.row.mrhTx.None?
    && s.tasks == map[] && s.attempts == []
  }

  /** The claim rests on a sufficient lockup that is confirmed or may be claimed unconfirmed. */
  predicate Justified(s: State, a: Attempt) {
    && a.tx.value.Some? && a.tx.value.value >= a.read.receiverAmount + a.read.claimFees
    && (if a.zeroConf then a.read.receiverAmount <= s.zeroConfMax && !a.tx.rbf else a.tx.confirmed)
    && a.read.claimFees == s.row.claimFees
    && (s.row.mrhTx.None? ==> a.read.receiverAmount == s.row.receiverAmount)
  }

  predicate TaskInv(s: State, task: Task) {
    && task.read.claimFees == s.row.claimFees
    && (s.row.mrhTx.None? ==> task.read.receiverAmount == s.row.receiverAmount)
    && (task.pc.Claiming? ==> Justified(s, task.pc.why))
  }

  ghost predicate Inv(s: State) {
    && (forall t <- s.tasks :: TaskInv(s, s.tasks[t]))
    && (forall a <- s.attempts :: Justified(s, a))
  }

  /** What never goes back over a run. */
  predicate Advances(before: ReceiveSwap, after: ReceiveSwap) {
    && (before.state.Complete? ==> after.state.Complete?)
    && (before.state.Failed? ==> after.state.Failed?)
    && (after.state.Created? ==> before.state.Created?)
    && (before.lockupTx.Some? ==> after.lockupTx == before.lockupTx)
    && (before.mrhTx.Some? ==> after.mrhTx == before.mrhTx)
    && (after.mrhTx.None? ==> after.receiverAmount == before.receiverAmount)
    && before.claimFees == after.claimFees
  }

  /** A full-row write takes nothing back. */
  predicate Keeps(s: State, e: Event) {
    e.Overwrite? ==> Advances(s.row, e.row)
  }

  predicate AllKeep(s: State, events: seq<Event>)
    decreases |events|
  {
    events == [] || (Keeps(s, events[0]) && AllKeep(Do(s, events[0]), events[1..]))
  }

  lemma StepAdvances(s: State, e: Event)
    requires Keeps(s, e)
    ensures Advances(s.row, Do(s, e).row) && s.zeroConfMax == Do(s, e).zeroConfMax
    ensures s.attempts <= Do(s, e).attempts
  {
  }

  lemma JustifiedStays(s: State, s': State, a: Attempt)
    requires Advances(s.row, s'.row) && s.zeroConfMax == s'.zeroConfMax && Justified(s, a)
    ensures Justified(s', a)
  {
  }

  lemma AttemptsPreserved(s: State, e: Event)
    requires Inv(s) && Keeps(s, e)
    ensures forall a <- Do(s, e).attempts :: Justified(Do(s, e), a)
  {
    var s' := Do(s, e);
    StepAdvances(s, e);
    forall a <- s'.attempts ensures Justified(s', a) {
      if a !in s.attempts {
        assert TaskInv(s, s.tasks[e.task]);
      }
      JustifiedStays(s, s', a);
    }
  }

  lemma TaskInvStays(s: State, s': State, task: Task)
    requires Advances(s.row, s'.row) && s.zeroConfMax == s'.zeroConfMax && TaskInv(s, task)
    ensures TaskInv(s', task)
  {
  }

  /** The step that starts a task, and the step a task itself takes. */
  lemma StartStep(s: State, e: Event, t: TaskId)
    requires Inv(s) && Enabled(s, e) && t !in s.tasks && t in Do(s, e).tasks
    ensures TaskInv(Do(s, e), Do(s, e).tasks[t])
  {
  }

  lemma OwnStep(s: State, e: Event, t: TaskId)
    requires Inv(s) && Keeps(s, e) && Enabled(s, e) && t in s.tasks && s.tasks[t] != Do(s, e).tasks[t]
    ensures TaskInv(Do(s, e), Do(s, e).tasks[t])
  {
    assert TaskInv(s, s.tasks[t]);
  }

  lemma StepPreservesInv(s: State, e: Event)
    requires Inv(s) && Keeps(s, e)
    ensures Inv(Do(s, e))
  {
    var s' := Do(s, e);
    StepAdvances(s, e);
    AttemptsPreserved(s, e);
    forall t <- s'.tasks ensures TaskInv(s', s'.tasks[t]) {
      if t !in s.tasks {
        StartStep(s, e, t);
      } else if s.tasks[t] == s'.tasks[t] {
        TaskInvStays(s, s', s.tasks[t]);
      } else {
        OwnStep(s, e, t);
      }
    }
  }

  lemma {:induction false} RunPreservesInv(s: State, events: seq<Event>)
    requires Inv(s) && AllKeep(s, events)
    ensures Inv(Run(s, events)) && Advances(s.row, Run(s, events).row) && s.zeroConfMax == Run(s, events).zeroConfMax
    decreases |events|
  {
    if events != [] {
      StepPreservesInv(s, events[0]);
      StepAdvances(s, events[0]);
      RunPreservesInv(Do(s, events[0]), events[1..]);
    }
  }

  /**
  In every run with keeping full-row writes, wherever a claim starts, the lockup was found to pay the receiver
  amount and the claim fees; it was confirmed, or the amount is within the zero-conf limit and no input
  signals replacement.
  */
  lemma ClaimSafety(s: State, events: seq<Event>)
    requires Initial(s) && AllKeep(s, events)
    ensures var s' := Run(s, events);
            forall a <- s'.attempts ::
              && a.tx.value.Some? && a.tx.value.value >= a.read.receiverAmount + a.read.claimFees
              && (if a.zeroConf then a.read.receiverAmount <= s'.zeroConfMax && !a.tx.rbf else a.tx.confirmed)
              && a.read.claimFees == s'.row.claimFees
              && (s'.row.mrhTx.None? ==> a.read.receiverAmount == s'.row.receiverAmount)
  {
    RunPreservesInv(s, events);
  }

  /** Over such runs a complete or failed swap stays so, and lockup and MRH ids are written once. */
  lemma NeverGoesBack(s: State, before: seq<Event>, after: seq<Event>)
    requires Initial(s) && AllKeep(s, before) && AllKeep(Run(s, before), after)
    ensures var row, row' := Run(s, before).row, Run(Run(s, before), after).row;
            && (row.state.Complete? ==> row'.state.Complete?) && (row.state.Failed? ==> row'.state.Failed?)
            && (row'.state.Created? ==> row.state.Created?)
            && (row.lockupTx.Some? ==> row'.lockupTx == row.lockupTx)
            && (row.mrhTx.Some? ==> row'.mrhTx == row.mrhTx)
            && (row'.mrhTx.None? ==> row'.receiverAmount == row.receiverAmount)
  {
    RunPreservesInv(s, before);
    RunPreservesInv(Run(s, before), after);
  }

  /**
  What an undisturbed mempool lockup does: nothing to a swap that was claimed or paid otherwise; a lockup that
  pays too little fails the swap; any other is recorded with Pending while the swap is ongoing, and then
  claimed exactly within the zero-conf limit and if no input signals replacement.
  */
  lemma MempoolRun(s: State, t: TaskId, tx: LockupTx, seen: bool, sqlOk: bool)
    requires t !in s.tasks
    ensures var end := Do(Do(Do(Do(s, OnMempool(t, Some(tx))), See(t, seen)), Decide(t, sqlOk)), Claim(t));
            var looked := seen && s.row.claimTx.None? && s.row.mrhTx.None?;
            var pays := tx.value.Some? && tx.value.value >= s.row.receiverAmount + s.row.claimFees;
            var recorded := looked && pays && sqlOk && s.row.state in {Created, Pending};
            && end.row == (if recorded then
                             s.row.(state := Pending,
                             lockupTx := if s.row.lockupTx.Some? then s.row.lockupTx else Some(tx.id))
                           else if looked && !pays && sqlOk && !s.row.state.Complete? then s.row.(state := Failed)
                           else s.row)
            && end.attempts == s.attempts + if recorded && s.row.receiverAmount <= s.zeroConfMax && !tx.rbf
                                            then [Attempt(s.row, tx, true)] else []
  {
    var s1 := Do(s, OnMempool(t, Some(tx)));
    var s2 := Do(s1, See(t, seen));
    if !(seen && s.row.claimTx.None? && s.row.mrhTx.None?) {
      assert s2.tasks[t].pc.Done?;
    }
  }

  /**
  What an undisturbed lockup announced as confirmed does: an underpaid one fails the swap even if it was
  claimed, and one that pays leads to a claim exactly if the swap is ongoing and unclaimed.
  */
  lemma ConfirmedRun(s: State, t: TaskId, tx: LockupTx, matches: bool, sqlOk: bool)
    requires t !in s.tasks
    ensures var end := Do(Do(Do(s, OnConfirmed(t, Some(tx))), Confirm(t, matches, sqlOk)), Claim(t));
            var looked := matches && tx.confirmed && s.row.mrhTx.None?;
            var pays := tx.value.Some? && tx.value.value >= s.row.receiverAmount + s.row.claimFees;
            var claims := looked && pays && sqlOk && s.row.claimTx.None? && s.row.state in {Created, Pending};
            && end.row == (if claims then s.row.(state := Pending)
                           else if looked && !pays && sqlOk && !s.row.state.Complete? then s.row.(state := Failed)
                           else s.row)
            && end.attempts == s.attempts + if claims then [Attempt(s.row, tx, false)] else []
  {
    var s1 := Do(s, OnConfirmed(t, Some(tx)));
    var s2 := Do(s1, Confirm(t, matches, sqlOk));
    if s.row.mrhTx.Some? {
      assert s1.tasks[t].pc.Done? && s2 == s1;
    }
  }

  /** What an undisturbed block rescan does with the transaction found under the recorded lockup id, if any. */
  lemma RescanRun(s: State, t: TaskId, found: Option<LockupTx>, sqlOk: bool)
    requires t !in s.tasks && (found.Some? ==> s.row.lockupTx == Some(found.value.id))
    ensures var end := Do(Do(Do(s, OnBlock(t)), Rescan(t, found, sqlOk)), Claim(t));
            var looked := && s.row.state in {Created, Pending} && s.row.lockupTx.Some? && s.row.claimTx.None?
                          && found.Some? && found.value.confirmed;
            var pays := found.Some? && found.value.value.Some?
                        && found.value.value.value >= s.row.receiverAmount + s.row.claimFees;
            && end.row == (if looked && !pays && sqlOk then s.row.(state := Failed) else s.row)
            && end.attempts == s.attempts + if looked && pays then [Attempt(s.row, found.value, false)] else []
  {
    var s1 := Do(s, OnBlock(t));
    var s2 := Do(s1, Rescan(t, found, sqlOk));
    if !(s.row.state in {Created, Pending} && s.row.lockupTx.Some? && s.row.claimTx.None?) {
      assert s1.tasks[t].pc.Done? && s2 == s1;
    }
  }

  /** A failure status fails the swap unless it is complete; a claim address and a full-row write take effect. */
  lemma RowStepsApply(s: State, address: SwapTypes.Address, row: ReceiveSwap)
    ensures Do(s, Fail).row == if s.row.state.Complete? then s.row else s.row.(state := Failed)
    ensures Do(s, Address(address)).row == s.row.(claimAddress := Some(address))
    ensures Do(s, Overwrite(row)) == s.(row := row)
  {
  }

  /** A claim id is set in an unclaimed row and cleared by its owner. */
  lemma ClaimIdStepsApply(s: State, tx: TxId)
    ensures s.attempts != [] ==>
              Do(s, SetClaimId(tx)).row == if s.row.claimTx.None? then s.row.(claimTx := Some(tx)) else s.row
    ensures Do(s, UnsetClaimId(tx)).row == if s.row.claimTx == Some(tx) then s.row.(claimTx := None) else s.row
  {
  }

  /** A status or a block starts a task of its own and takes over no running one. */
  lemma RunningTasksStay(s: State, t: TaskId, tx: Option<LockupTx>)
    requires t in s.tasks
    ensures Do(s, OnMempool(t, tx)) == s && Do(s, OnConfirmed(t, tx)) == s && Do(s, OnBlock(t)) == s
  {
  }

  predicate Kept(before: Option<TxId>, after: Option<TxId>) {
    before.Some? ==> after == before
  }

  /**
  A recovery keeps exactly if it is skipped, or the chain shows the stored lockup and MRH ids, a new amount
  only together with an MRH id, and no state that takes an ended swap back.
  */
  lemma RecoveryKeepsIff(s: State, data: R.ReceiveData, grace: bool)
    ensures Keeps(s, Overwrite(R.RecoverReceive(s.row, data, grace))) <==>
            var state := if data.state.Some? then data.state.value else s.row.state;
            || (grace && s.row.claimTx.Some? && data.claimTx.None?)
            || (&& (s.row.state.Complete? || s.row.state.Failed? ==> state == s.row.state)
                && (state.Created? ==> s.row.state.Created?)
                && Kept(s.row.lockupTx, data.lockupTx) && Kept(s.row.mrhTx, data.mrhTx)
                && (data.mrhTx.None? && data.mrhAmount.Some? ==> data.mrhAmount.value == s.row.receiverAmount))
  {
  }
}
