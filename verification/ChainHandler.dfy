/**
The chain swap handler over one swap. Status updates, block rescans and claims run as tasks that hold
the row they read while they wait for the network; between two waits a task acts in one step. The
validation and the write of a status update are two statements without a wait in between, taken here as
one step. Recovery and sync come in as full-row writes of any kind. The version column plays no role here.
*/
module ChainHandler {
  import opened Wrappers
  import opened SwapTypes
  import opened ChainStore
  import P = ClaimProtocol
  import R = Recovery

  type TaskId = nat

  /** validate_state_transition. */
  predicate ValidTransition(from: PaymentState, to: PaymentState) {
    match to
    case Created => false
    case Pending => Early(from)
    case WaitingFeeAcceptance => Early(from)
    case Complete => Early(from) || from.RefundPending?
    case TimedOut => from.Created?
    case Refundable => !from.TimedOut? && !from.Refundable?
    case RefundPending => from.Pending? || from.WaitingFeeAcceptance? || from.Refundable? || from.RefundPending?
    case Failed => !from.Complete?
  }

  predicate Early(state: PaymentState) {
    state.Created? || state.Pending? || state.WaitingFeeAcceptance?
  }

  /** update_swap_info on the stored row. */
  function UpdateInfo(row: ChainSwap, u: ChainUpdate): Option<ChainSwap> {
    if ValidTransition(row.state, u.toState) then Some(Assign(StatusUpdate(u), row)) else None
  }

  const NO_IDS := ChainUpdate(Pending, None, None, None, None, None)

  /** The updates the handlers and the SDK issue, besides recording a server lockup. */
  predicate Issued(u: ChainUpdate) {
    && u.serverLockup.None? && u.claimTx.None? && u.claimAddress.None?
    && (u.userLockup.Some? ==> u.toState.Pending?)
    && (u.refundTx.Some? ==> u.toState.RefundPending?)
  }

  // ----- Server lockup transactions -----

  /**
  A server lockup transaction as announced: whether its content came with it and matches the script
  history, how it stands on the chain, and the value it pays to the claim script if that can be unblinded.
  */
  datatype LockupTx = LockupTx(id: TxId, matches: bool, confirmed: bool, rbf: bool, value: Option<nat>)

  /** What the lockup has to pay: the accepted quote of an incoming swap, otherwise the amount agreed at creation. */
  function Threshold(swap: ChainSwap, agreed: nat): nat {
    if swap.terms.direction.Incoming? && swap.acceptedReceiver.Some?
    then swap.acceptedReceiver.value + swap.terms.claimFees
    else agreed
  }

  /** verify_server_lockup_tx. */
  predicate Verifies(swap: ChainSwap, agreed: nat, tx: LockupTx, confirmation: bool) {
    && tx.matches
    && (confirmation ==> tx.confirmed)
    && (confirmation || !tx.rbf)
    && tx.value.Some? && tx.value.value >= Threshold(swap, agreed)
  }

  // ----- Tasks -----

  /** Why a claim is attempted. */
  datatype Attempt =
    | ByStatus(read: ChainSwap, tx: LockupTx, confirmation: bool)
    | ByBlock(id: TxId, height: int)

  datatype Pc =
    | CheckingUser(tx: LockupTx, confirmation: bool)
    | CheckingServer(tx: LockupTx, confirmation: bool)
    | Recording(tx: LockupTx, confirmation: bool, verified: bool)
    | Scanning(id: TxId)
    | Claiming(why: Attempt)
    | Done

  datatype Task = Task(read: ChainSwap, pc: Pc)

  /** `agreed` is the claim amount of the create response; `verified` and `reported` were checked and announced. */
  datatype State = State(
    row: ChainSwap,
    agreed: nat,
    tasks: map<TaskId, Task>,
    verified: set<LockupTx>,
    reported: set<TxId>,
    attempts: seq<Attempt>)

  datatype Event =
    | OnServerStatus(task: TaskId, tx: Option<LockupTx>, confirmation: bool)
    | CheckUser(task: TaskId, ok: bool)
    | CheckServer(task: TaskId)
    | Record(task: TaskId, sqlOk: bool)
    | OnBlock(task: TaskId)
    | Scan(task: TaskId, height: Option<int>)
    | Claim(task: TaskId)
    | SetClaimId(address: Option<Address>, claimTx: TxId)
    | UnsetClaimId(claimTx: TxId)
    | Update(update: ChainUpdate)
    | Column(stmt: Statement)
    | Overwrite(row: ChainSwap)

  predicate Enabled(s: State, e: Event) {
    match e
    case OnServerStatus(t, _, _) => t !in s.tasks
    case CheckUser(t, _) => t in s.tasks && s.tasks[t].pc.CheckingUser?
    case CheckServer(t) => t in s.tasks && s.tasks[t].pc.CheckingServer?
    case Record(t, _) => t in s.tasks && s.tasks[t].pc.Recording?
    case OnBlock(t) => t !in s.tasks
    case Scan(t, _) => t in s.tasks && s.tasks[t].pc.Scanning?
    case Claim(t) => t in s.tasks && s.tasks[t].pc.Claiming?
    case SetClaimId(_, _) => s.attempts != [] && s.row.claimTx.None?
    case UnsetClaimId(tx) => s.row.claimTx == Some(tx)
    case Update(u) => Issued(u) && ValidTransition(s.row.state, u.toState)
    case Column(stmt) => !stmt.SetClaim? && !stmt.UnsetClaim? && !stmt.StatusUpdate?
    case Overwrite(_) => true
  }

  function Jump(s: State, t: TaskId, pc: Pc): State
    requires t in s.tasks
  {
    s.(tasks := s.tasks[t := s.tasks[t].(pc := pc)])
  }

  function Do(s: State, e: Event): State {
    if !Enabled(s, e) then s else
    match e
    case OnServerStatus(t, tx, confirmation) =>
      s.(tasks := s.tasks[t := Task(s.row, if s.row.claimTx.None? && tx.Some?
                                then CheckingUser(tx.value, confirmation) else Done)])
    case CheckUser(t, ok) =>
      Jump(s, t, if ok then CheckingServer(s.tasks[t].pc.tx, s.tasks[t].pc.confirmation) else Done)
    case CheckServer(t) => DoCheckServer(s, t)
    case Record(t, sqlOk) => DoRecord(s, t, sqlOk)
    case OnBlock(t) =>
      s.(tasks := s.tasks[t := Task(s.row, if s.row.state.Pending? && s.row.claimTx.None? && s.row.serverLockup.Some?
                                then Scanning(s.row.serverLockup.value) else Done)])
    case Scan(t, height) =>
      Jump(s, t, if height.Some? && height.value > 0 then Claiming(ByBlock(s.tasks[t].pc.id, height.value)) else Done)
    case Claim(t) => Jump(s, t, Done).(attempts := s.attempts + [s.tasks[t].pc.why])
    case SetClaimId(address, tx) => s.(row := Assign(SetClaim(address, tx), s.row))
    case UnsetClaimId(tx) => s.(row := Assign(UnsetClaim(tx), s.row))
    case Update(u) => s.(row := UpdateInfo(s.row, u).value)
    case Column(stmt) => s.(row := Assign(stmt, s.row))
    case Overwrite(row) => s.(row := row)
  }

  /** An unverified lockup ends the handling, except that an incoming swap's confirmed lockup is still recorded. */
  function DoCheckServer(s: State, t: TaskId): State
    requires Enabled(s, CheckServer(t))
  {
    var Task(read, CheckingServer(tx, confirmation)) := s.tasks[t];
    var ok := Verifies(read, s.agreed, tx, confirmation);
    Jump(s, t, if ok || (read.terms.direction.Incoming? && confirmation) then Recording(tx, confirmation, ok) else Done)
    .(verified := if ok then s.verified + {tx} else s.verified)
  }

  /** Records the lockup id, then claims if the lockup was verified and is confirmed or zero-conf was accepted. */
  function DoRecord(s: State, t: TaskId, sqlOk: bool): State
    requires Enabled(s, Record(t, sqlOk))
  {
    var Task(read, Recording(tx, confirmation, ok)) := s.tasks[t];
    var res := UpdateInfo(s.row, NO_IDS.(serverLockup := Some(tx.id)));
    if !sqlOk || res.None? then Jump(s, t, Done) else
    Jump(s, t, if ok && (confirmation || read.acceptZeroConf) then Claiming(ByStatus(read, tx, confirmation)) else Done)
    .(row := res.value, reported := if confirmation then s.reported + {tx.id} else s.reported)
  }

  function Run(s: State, events: seq<Event>): State
    decreases |events|
  {
    if events == [] then s else Run(Do(s, events[0]), events[1..])
  }

  /** A swap as it is created. */
  predicate Initial(s: State) {
    && s.row.state.Created? && NoIds(s.row)
    && s.tasks == map[] && s.verified == {} && s.reported == {} && s.attempts == []
  }

  predicate NoIds(row: ChainSwap) {
    row.serverLockup.None? && row.userLockup.None? && row.claimTx.None? && row.refundTx.None?
  }

  // ----- Claim safety -----

  /** The network evidence behind a claim attempt. */
  predicate Backed(s: State, why: Attempt) {
    match why
    case ByStatus(read, tx, confirmation) =>
      && read.terms == s.row.terms
      && tx in s.verified
      && Verifies(read, s.agreed, tx, confirmation)
      && (if confirmation then tx.confirmed else !tx.rbf && read.acceptZeroConf)
    case ByBlock(id, height) => height > 0 && s.row.serverLockup == Some(id)
  }

  predicate IsVerified(s: State, id: TxId) {
    exists tx <- s.verified :: tx.id == id && Checked(s, tx)
  }

  /** What a successful verification established. */
  predicate Checked(s: State, tx: LockupTx) {
    tx.matches && tx.value.Some? && (s.row.terms.direction.Outgoing? ==> tx.value.value >= s.agreed)
  }

  /** A recorded lockup was verified, or is an incoming swap's and was announced as confirmed. */
  predicate Sourced(s: State) {
    s.row.serverLockup.Some? ==>
      || IsVerified(s, s.row.serverLockup.value)
      || (s.row.terms.direction.Incoming? && s.row.serverLockup.value in s.reported)
  }

  ghost predicate TaskInv(s: State, task: Task) {
    && task.read.terms == s.row.terms
    && match task.pc
       case Recording(tx, confirmation, ok) =>
         && (ok ==> tx in s.verified && Verifies(task.read, s.agreed, tx, confirmation))
         && (ok || (s.row.terms.direction.Incoming? && confirmation))
       case Scanning(id) => s.row.serverLockup == Some(id)
       case Claiming(why) => s.row.serverLockup.Some? && Backed(s, why)
       case _ => true
  }

  ghost predicate Inv(s: State) {
    && (s.row.state.Created? || s.row.state.TimedOut? ==> NoIds(s.row))
    && (forall t <- s.tasks :: TaskInv(s, s.tasks[t]))
    && (s.attempts != [] ==> s.row.serverLockup.Some?)
    && (forall a <- s.attempts :: Backed(s, a))
    && (forall tx <- s.verified :: Checked(s, tx))
    && Sourced(s)
  }

  /** What never goes back over a run: see NeverGoesBack. */
  predicate Advances(before: ChainSwap, after: ChainSwap) {
    && before.terms == after.terms
    && (!Early(before.state) ==> !Early(after.state))
    && (after.state.Created? ==> before.state.Created?)
    && (before.serverLockup.Some? ==> after.serverLockup == before.serverLockup)
    && (before.userLockup.Some? ==> after.userLockup == before.userLockup)
    && (before.refundTx.Some? ==> after.refundTx.Some?)
  }

  /** A full-row write takes nothing back, and the ids it leaves or adds are backed like those of the handlers. */
  predicate Keeps(s: State, e: Event) {
    e.Overwrite? ==>
      && Advances(s.row, e.row)
      && (e.row.state.Created? || e.row.state.TimedOut? ==> NoIds(e.row))
      && Sourced(s.(row := e.row))
  }

  predicate AllKeep(s: State, events: seq<Event>)
    decreases |events|
  {
    events == [] || (Keeps(s, events[0]) && AllKeep(Do(s, events[0]), events[1..]))
  }

  lemma StepAdvances(s: State, e: Event)
    requires Keeps(s, e)
    ensures Advances(s.row, Do(s, e).row)
    ensures s.attempts <= Do(s, e).attempts && s.verified <= Do(s, e).verified && s.reported <= Do(s, e).reported
    ensures s.agreed == Do(s, e).agreed
  {
  }

  /** Evidence stays good while the row advances. */
  lemma BackedStays(s: State, s': State, why: Attempt)
    requires Advances(s.row, s'.row) && s.verified <= s'.verified && s.agreed == s'.agreed
    ensures Backed(s, why) ==> Backed(s', why)
  {
  }

  lemma TaskInvStays(s: State, s': State, task: Task)
    requires Advances(s.row, s'.row) && s.verified <= s'.verified && s.agreed == s'.agreed
    ensures TaskInv(s, task) ==> TaskInv(s', task)
  {
  }

  lemma TaskPreserved(s: State, e: Event, t: TaskId)
    requires Inv(s) && Keeps(s, e) && t in Do(s, e).tasks
    ensures TaskInv(Do(s, e), Do(s, e).tasks[t])
  {
    StepAdvances(s, e);
    if t in s.tasks {
      assert TaskInv(s, s.tasks[t]);
      TaskInvStays(s, Do(s, e), s.tasks[t]);
    }
  }

  lemma TasksPreserved(s: State, e: Event)
    requires Inv(s) && Keeps(s, e)
    ensures forall t <- Do(s, e).tasks :: TaskInv(Do(s, e), Do(s, e).tasks[t])
  {
    forall t <- Do(s, e).tasks ensures TaskInv(Do(s, e), Do(s, e).tasks[t]) {
      TaskPreserved(s, e, t);
    }
  }

  lemma AttemptsPreserved(s: State, e: Event)
    requires Inv(s) && Keeps(s, e)
    ensures forall a <- Do(s, e).attempts :: Do(s, e).row.serverLockup.Some? && Backed(Do(s, e), a)
  {
    var s' := Do(s, e);
    StepAdvances(s, e);
    forall a <- s'.attempts ensures s'.row.serverLockup.Some? && Backed(s', a) {
      if a in s.attempts {
        BackedStays(s, s', a);
      } else {
        assert TaskInv(s, s.tasks[e.task]);
        BackedStays(s, s', a);
      }
    }
  }

  lemma VerifiedPreserved(s: State, e: Event)
    requires Inv(s) && Keeps(s, e)
    ensures forall tx <- Do(s, e).verified :: Checked(Do(s, e), tx)
  {
    StepAdvances(s, e);
    if Enabled(s, e) && e.CheckServer? {
      assert TaskInv(s, s.tasks[e.task]);
    }
  }

  lemma SourcedPreserved(s: State, e: Event)
    requires Inv(s) && Keeps(s, e)
    ensures Sourced(Do(s, e))
  {
    var s' := Do(s, e);
    StepAdvances(s, e);
    if e.Overwrite? {
      assert s'.verified == s.verified && s' == s.(row := e.row);
    } else if s.row.serverLockup.Some? {
      if IsVerified(s, s.row.serverLockup.value) {
        var tx :| tx in s.verified && tx.id == s.row.serverLockup.value && Checked(s, tx);
        assert tx in s'.verified && Checked(s', tx);
      }
    } else if Enabled(s, e) && e.Record? {
      assert TaskInv(s, s.tasks[e.task]);
      if s.tasks[e.task].pc.verified {
        var tx := s.tasks[e.task].pc.tx;
        assert tx in s'.verified && Checked(s', tx);
      }
    }
  }

  lemma NoIdsPreserved(s: State, e: Event)
    requires Inv(s) && Keeps(s, e)
    ensures var row := Do(s, e).row; row.state.Created? || row.state.TimedOut? ==> NoIds(row)
  {
  }

  lemma StepPreservesInv(s: State, e: Event)
    requires Inv(s) && Keeps(s, e)
    ensures Inv(Do(s, e))
  {
    NoIdsPreserved(s, e);
    TasksPreserved(s, e);
    AttemptsPreserved(s, e);
    VerifiedPreserved(s, e);
    SourcedPreserved(s, e);
    var s' := Do(s, e);
    if s'.attempts != [] {
      assert s'.attempts[0] in s'.attempts;
    }
  }

  lemma {:induction false} RunPreservesInv(s: State, events: seq<Event>)
    requires Inv(s) && AllKeep(s, events)
    ensures Inv(Run(s, events)) && Advances(s.row, Run(s, events).row) && s.agreed == Run(s, events).agreed
    ensures s.attempts <= Run(s, events).attempts
    decreases |events|
  {
    if events != [] {
      StepPreservesInv(s, events[0]);
      StepAdvances(s, events[0]);
      RunPreservesInv(Do(s, events[0]), events[1..]);
    }
  }

  // ----- Whole runs -----

  function ClaimedLockup(why: Attempt): TxId {
    match why
    case ByStatus(_, tx, _) => tx.id
    case ByBlock(id, _) => id
  }

  /**
  In every run with keeping full-row writes a claim is attempted only once a server lockup id is recorded,
  on a lockup that was seen
  confirmed, or was verified, does not signal replacement and was read with zero-conf accepted. A lockup
  claimed on its status pays the agreed amount, or the accepted amount and the claim fees if the row read had
  one. The lockup
  an outgoing swap claims was found to pay the agreed amount, as was the one it has recorded.
  */
  lemma ClaimSafety(s: State, events: seq<Event>)
    requires Initial(s) && AllKeep(s, events)
    ensures var s' := Run(s, events);
            && (forall a <- s'.attempts :: s'.row.serverLockup.Some? && Backed(s', a))
            && (forall a <- s'.attempts :: a.ByBlock? ==> a.height > 0 && s'.row.serverLockup == Some(a.id))
            && (forall a <- s'.attempts :: a.ByStatus? ==>
                  && a.tx.matches && (if a.confirmation then a.tx.confirmed else !a.tx.rbf && a.read.acceptZeroConf)
                  && a.read.terms == s'.row.terms && a.tx.value.Some?
                  && a.tx.value.value >= (if a.read.terms.direction.Incoming? && a.read.acceptedReceiver.Some?
                                          then a.read.acceptedReceiver.value + a.read.terms.claimFees else s'.agreed))
            && (s'.row.terms.direction.Outgoing? ==>
                  && (s'.row.serverLockup.Some? ==> PaysAgreed(s', s'.row.serverLockup.value))
                  && (forall a <- s'.attempts :: PaysAgreed(s', ClaimedLockup(a))))
  {
    RunPreservesInv(s, events);
    var s' := Run(s, events);
    if s'.row.terms.direction.Outgoing? {
      if s'.row.serverLockup.Some? {
        var tx :| tx in s'.verified && tx.id == s'.row.serverLockup.value;
        assert PaysAgreed(s', s'.row.serverLockup.value);
      }
      forall a <- s'.attempts ensures PaysAgreed(s', ClaimedLockup(a)) {
        assert Backed(s', a);
        if a.ByStatus? {
          assert a.tx in s'.verified;
        }
      }
    }
  }

  /** Some lockup with this id was checked and pays the agreed amount. */
  ghost predicate PaysAgreed(s: State, id: TxId) {
    exists tx <- s.verified :: tx.id == id && tx.value.Some? && tx.value.value >= s.agreed
  }

  lemma {:induction false} RunAppend(s: State, a: seq<Event>, b: seq<Event>)
    ensures Run(s, a + b) == Run(Run(s, a), b)
    ensures AllKeep(s, a + b) <==> AllKeep(s, a) && AllKeep(Run(s, a), b)
    decreases |a|
  {
    if a == [] {
      assert a + b == b;
    } else {
      assert (a + b)[1..] == a[1..] + b;
      RunAppend(Do(s, a[0]), a[1..], b);
    }
  }

  /**
  Over every run with keeping full-row writes a swap that left Created, Pending and WaitingFeeAcceptance
  stays out of them, lockup ids
  are written once, a refund id is never lost, and a Created or TimedOut swap has no transaction at all.
  */
  lemma NeverGoesBack(s: State, before: seq<Event>, after: seq<Event>)
    requires Initial(s) && AllKeep(s, before + after)
    ensures var row, row' := Run(s, before).row, Run(s, before + after).row;
            && row'.terms == row.terms
            && (row'.state in {Created, Pending, WaitingFeeAcceptance} ==>
                  row.state in {Created, Pending, WaitingFeeAcceptance})
            && (row'.state.Created? ==> row.state.Created?)
            && (row.serverLockup.Some? ==> row'.serverLockup == row.serverLockup)
            && (row.userLockup.Some? ==> row'.userLockup == row.userLockup)
            && (row.refundTx.Some? ==> row'.refundTx.Some?)
            && (row'.state.Created? || row'.state.TimedOut? ==>
                  row'.serverLockup.None? && row'.userLockup.None? && row'.claimTx.None? && row'.refundTx.None?)
  {
    RunAppend(s, before, after);
    RunPreservesInv(s, before);
    RunPreservesInv(Run(s, before), after);
  }

  /** How far the handling of a server status gets before it records the lockup. */
  lemma ServerStatusChecked(s: State, t: TaskId, tx: LockupTx, confirmation: bool, userOk: bool)
    requires t !in s.tasks
    ensures var checked := Do(Do(s, OnServerStatus(t, Some(tx), confirmation)), CheckUser(t, userOk));
            var s' := Do(checked, CheckServer(t));
            var verified := Verifies(s.row, s.agreed, tx, confirmation);
            var recording := userOk && s.row.claimTx.None?
                             && (verified || (s.row.terms.direction.Incoming? && confirmation));
            && t in s'.tasks
            && s'.tasks[t] == Task(s.row, if recording then Recording(tx, confirmation, verified) else Done)
            && s'.row == s.row && s'.agreed == s.agreed && s'.attempts == s.attempts && s'.reported == s.reported
  {
    var s2 := Do(Do(s, OnServerStatus(t, Some(tx), confirmation)), CheckUser(t, userOk));
    if s.row.claimTx.None? && userOk {
      assert s2.tasks[t] == Task(s.row, CheckingServer(tx, confirmation));
    } else {
      assert s2.tasks[t].pc.Done? && Do(s2, CheckServer(t)) == s2;
    }
  }

  /**
  What an undisturbed server status does, whatever the checks and the recording statement answer: it records
  the lockup if it was verified, or an incoming swap's if it was announced as confirmed, and then claims if it
  was verified and is confirmed or zero-conf was accepted.
  */
  lemma ServerStatusRun(s: State, t: TaskId, tx: LockupTx, confirmation: bool, userOk: bool, sqlOk: bool)
    requires t !in s.tasks
    ensures var checked := Do(Do(s, OnServerStatus(t, Some(tx), confirmation)), CheckUser(t, userOk));
            var end := Do(Do(Do(checked, CheckServer(t)), Record(t, sqlOk)), Claim(t));
            var incoming := s.row.terms.direction.Incoming?;
            var due := if incoming && s.row.acceptedReceiver.Some?
                       then s.row.acceptedReceiver.value + s.row.terms.claimFees else s.agreed;
            var verified := && tx.matches && tx.value.Some? && tx.value.value >= due
                            && (if confirmation then tx.confirmed else !tx.rbf);
            var recorded := && userOk && sqlOk && s.row.claimTx.None?
                            && s.row.state in {Created, Pending, WaitingFeeAcceptance}
                            && (verified || (incoming && confirmation));
            && end.row == (if !recorded then s.row
                           else if s.row.serverLockup.Some? then s.row.(state := Pending)
                           else s.row.(state := Pending, serverLockup := Some(tx.id)))
            && end.reported == s.reported + (if recorded && confirmation then {tx.id} else {})
            && end.attempts == s.attempts + if recorded && verified && (confirmation || s.row.acceptZeroConf)
                                            then [ByStatus(s.row, tx, confirmation)] else []
  {
    ServerStatusChecked(s, t, tx, confirmation, userOk);
  }

  /** What an undisturbed block rescan does. */
  lemma RescanRun(s: State, u: TaskId, height: Option<int>)
    requires u !in s.tasks
    ensures var end := Do(Do(Do(s, OnBlock(u)), Scan(u, height)), Claim(u));
            && end.row == s.row
            && end.attempts == s.attempts + if && s.row.state.Pending? && s.row.claimTx.None?
                                               && s.row.serverLockup.Some? && height.Some? && height.value > 0
                                            then [ByBlock(s.row.serverLockup.value, height.value)] else []
  {
  }

  /** The updates of the handlers apply exactly if the transition is valid, and write the state and the given id. */
  lemma HandlerUpdateApplies(s: State, to: PaymentState, userLockup: Option<TxId>, refundTx: Option<TxId>)
    requires (userLockup.Some? ==> to.Pending?) && (refundTx.Some? ==> to.RefundPending?)
    ensures Do(s, Update(ChainUpdate(to, None, userLockup, None, None, refundTx))).row ==
            if !ValidTransition(s.row.state, to) then s.row
            else s.row.(state := to,
                 userLockup := if s.row.userLockup.Some? then s.row.userLockup else userLockup,
                 refundTx := if refundTx.Some? then refundTx else s.row.refundTx)
  {
  }

  /** No update of a handler carries a server lockup, a claim, or an id without the state it goes with. */
  lemma OtherUpdatesAreNotIssued(s: State, u: ChainUpdate)
    requires || u.serverLockup.Some? || u.claimTx.Some? || u.claimAddress.Some?
             || (u.userLockup.Some? && !u.toState.Pending?) || (u.refundTx.Some? && !u.toState.RefundPending?)
    ensures Do(s, Update(u)) == s
  {
  }

  /** A claim id is set in an unclaimed row and cleared by its owner; other columns change by their statements. */
  lemma RowStepsApply(s: State, address: Option<Address>, tx: TxId, stmt: Statement)
    ensures s.attempts != [] ==>
              Do(s, SetClaimId(address, tx)).row ==
              if s.row.claimTx.None? then s.row.(claimAddress := address, claimTx := Some(tx)) else s.row
    ensures Do(s, UnsetClaimId(tx)).row == if s.row.claimTx == Some(tx) then s.row.(claimTx := None) else s.row
    ensures Do(s, Column(stmt)) == if stmt.SetClaim? || stmt.UnsetClaim? || stmt.StatusUpdate? then s
                                   else s.(row := Assign(stmt, s.row))
  {
  }

  /** A status or a block starts a task of its own and takes over no running one. */
  lemma RunningTasksStay(s: State, t: TaskId, tx: Option<LockupTx>, confirmation: bool)
    requires t in s.tasks
    ensures Do(s, OnServerStatus(t, tx, confirmation)) == s && Do(s, OnBlock(t)) == s
  {
  }

  /** The transitions out of each state. */
  lemma TransitionsFrom(to: PaymentState)
    ensures ValidTransition(Created, to) <==>
            to in {Pending, WaitingFeeAcceptance, Complete, TimedOut, Refundable, Failed}
    ensures forall from | from in {Pending, WaitingFeeAcceptance} ::
              ValidTransition(from, to) <==>
              to in {Pending, WaitingFeeAcceptance, Complete, Refundable, RefundPending, Failed}
    ensures ValidTransition(TimedOut, to) <==> to == Failed
    ensures ValidTransition(Complete, to) <==> to == Refundable
    ensures ValidTransition(Refundable, to) <==> to in {RefundPending, Failed}
    ensures ValidTransition(RefundPending, to) <==> to in {Refundable, Complete, Failed, RefundPending}
    ensures ValidTransition(Failed, to) <==> to in {Failed, Refundable}
  {
  }

  // ----- Which full-row writes are harmless -----

  /** A full-row write meets the keeping condition exactly if it advances the row and keeps the invariant. */
  lemma OverwriteKeepsIff(s: State, row: ChainSwap)
    requires Inv(s)
    ensures Keeps(s, Overwrite(row)) <==> Advances(s.row, row) && Inv(Do(s, Overwrite(row)))
  {
    if Keeps(s, Overwrite(row)) {
      StepPreservesInv(s, Overwrite(row));
    }
  }

  predicate Kept(before: Option<TxId>, after: Option<TxId>) {
    before.Some? ==> after == before
  }

  /** What the chain has to show for a recovery to be harmless, unless it is skipped. */
  predicate Confirms(s: State, data: R.ChainData) {
    var state := if data.state.Some? then data.state.value else s.row.state;
    && (!Early(s.row.state) ==> !Early(state)) && (state.Created? ==> s.row.state.Created?)
    && Kept(s.row.serverLockup, data.serverLockup) && Kept(s.row.userLockup, data.userLockup)
    && (s.row.refundTx.Some? ==> data.refundTx.Some?)
    && (state.Created? || state.TimedOut? ==>
          data.serverLockup.None? && data.userLockup.None? && data.claimTx.None? && data.refundTx.None?)
    && (data.serverLockup.Some? ==>
          || IsVerified(s, data.serverLockup.value)
          || (s.row.terms.direction.Incoming? && data.serverLockup.value in s.reported))
  }

  /** A recovery is harmless exactly if it is skipped or the chain confirms what is stored. */
  lemma RecoveryKeepsIff(s: State, data: R.ChainData, grace: bool)
    requires Inv(s)
    ensures Keeps(s, Overwrite(R.RecoverChain(s.row, data, grace)))
            <==> || Confirms(s, data)
                 || (grace && (|| (s.row.claimTx.Some? && data.claimTx.None?)
                               || (s.row.refundTx.Some? && data.refundTx.None?)
                               || (s.row.terms.direction.Outgoing? && s.row.userLockup.Some? && data.userLockup.None?)))
  {
    var row := R.RecoverChain(s.row, data, grace);
    assert forall tx <- s.verified :: Checked(s, tx) == Checked(s.(row := row), tx);
  }

  /**
  Otherwise a rescan can claim what was never verified, for outgoing swaps too: it claims the lockup that a
  recovery puts into a pending swap, which is verified and pays the agreed amount exactly if it was and did
  before.
  */
  lemma RecoveredLockupIsClaimed(s: State, data: R.ChainData, grace: bool, u: TaskId, height: int)
    requires Inv(s) && u !in s.tasks && height > 0
    requires var row := R.RecoverChain(s.row, data, grace);
             row.state.Pending? && row.claimTx.None? && row.serverLockup.Some?
    ensures var row := R.RecoverChain(s.row, data, grace);
            var s' := Run(Do(s, Overwrite(row)), Rescanned(u, height));
            && s'.attempts == s.attempts + [ByBlock(row.serverLockup.value, height)]
            && (IsVerified(s', row.serverLockup.value) <==> IsVerified(s, row.serverLockup.value))
            && (PaysAgreed(s', row.serverLockup.value) <==> PaysAgreed(s, row.serverLockup.value))
  {
    var row := R.RecoverChain(s.row, data, grace);
    RescanClaims(Do(s, Overwrite(row)), u, height, row.serverLockup.value);
    var s' := Run(Do(s, Overwrite(row)), Rescanned(u, height));
    assert forall tx <- s.verified :: Checked(s, tx) == Checked(s', tx);
  }

  // ----- Which lockups a rescan claims -----

  /**
  A status with confirmation for an unclaimed swap announces a lockup that verifies against the row as it is,
  and a full-row write brings in no lockup that was not verified.
  */
  predicate Honest(s: State, e: Event) {
    && Keeps(s, e)
    && (Enabled(s, e) && e.OnServerStatus? && e.confirmation && s.row.claimTx.None? && e.tx.Some?
        ==> Verifies(s.row, s.agreed, e.tx.value, true))
    && (e.Overwrite? && e.row.serverLockup.Some? ==> IsVerified(s, e.row.serverLockup.value))
  }

  predicate AllHonest(s: State, events: seq<Event>)
    decreases |events|
  {
    events == [] || (Honest(s, events[0]) && AllHonest(Do(s, events[0]), events[1..]))
  }

  /** What an announced lockup still has to pass is what it passes. */
  predicate HonestTask(agreed: nat, task: Task) {
    match task.pc
    case CheckingUser(tx, confirmation) => confirmation ==> Verifies(task.read, agreed, tx, true)
    case CheckingServer(tx, confirmation) => confirmation ==> Verifies(task.read, agreed, tx, true)
    case Recording(_, _, verified) => verified
    case _ => true
  }

  ghost predicate HonestInv(s: State) {
    && (forall t <- s.tasks :: HonestTask(s.agreed, s.tasks[t]))
    && (s.row.serverLockup.Some? ==> IsVerified(s, s.row.serverLockup.value))
  }

  lemma HonestTasksPreserved(s: State, e: Event)
    requires Honest(s, e) && forall t <- s.tasks :: HonestTask(s.agreed, s.tasks[t])
    ensures forall t <- Do(s, e).tasks :: HonestTask(Do(s, e).agreed, Do(s, e).tasks[t])
  {
  }

  lemma VerifiedStays(s: State, s': State, id: TxId)
    requires Advances(s.row, s'.row) && s.verified <= s'.verified && s.agreed == s'.agreed && IsVerified(s, id)
    ensures IsVerified(s', id)
  {
    var tx :| tx in s.verified && tx.id == id && Checked(s, tx);
    assert tx in s'.verified && Checked(s', tx);
  }

  lemma HonestStep(s: State, e: Event)
    requires Inv(s) && HonestInv(s) && Honest(s, e)
    ensures HonestInv(Do(s, e))
  {
    HonestTasksPreserved(s, e);
    StepAdvances(s, e);
    var s' := Do(s, e);
    if s.row.serverLockup.Some? {
      VerifiedStays(s, s', s.row.serverLockup.value);
    } else if e.Overwrite? {
      if e.row.serverLockup.Some? {
        VerifiedStays(s, s', e.row.serverLockup.value);
      }
    } else if Enabled(s, e) && e.Record? {
      assert TaskInv(s, s.tasks[e.task]) && HonestTask(s.agreed, s.tasks[e.task]);
      var tx := s.tasks[e.task].pc.tx;
      assert tx in s'.verified && Checked(s', tx);
    }
  }

  lemma {:induction false} HonestRun(s: State, events: seq<Event>)
    requires Inv(s) && HonestInv(s) && AllHonest(s, events)
    ensures Inv(Run(s, events)) && HonestInv(Run(s, events))
    decreases |events|
  {
    if events != [] {
      StepPreservesInv(s, events[0]);
      HonestStep(s, events[0]);
      HonestRun(Do(s, events[0]), events[1..]);
    }
  }

  /** If no status and no full-row write brings in an unverified lockup as confirmed, only verified ones are claimed. */
  lemma HonestRunsClaimVerified(s: State, events: seq<Event>)
    requires Initial(s) && AllHonest(s, events)
    ensures var s' := Run(s, events);
            && (s'.row.serverLockup.Some? ==> IsVerified(s', s'.row.serverLockup.value))
            && (forall a <- s'.attempts :: IsVerified(s', ClaimedLockup(a)))
  {
    HonestRun(s, events);
    var s' := Run(s, events);
    forall a <- s'.attempts ensures IsVerified(s', ClaimedLockup(a)) {
      assert Backed(s', a);
      if a.ByStatus? {
        assert a.tx in s'.verified && Checked(s', a.tx);
      }
    }
  }

  /** A server lockup announced as confirmed to task t, recorded, and found by task u at a new block. */
  function Announced(t: TaskId, tx: LockupTx): seq<Event> {
    [OnServerStatus(t, Some(tx), true), CheckUser(t, true), CheckServer(t), Record(t, true)]
  }

  function Rescanned(u: TaskId, height: int): seq<Event> {
    [OnBlock(u), Scan(u, Some(height)), Claim(u)]
  }

  /** An incoming swap that can record a lockup: nothing recorded or claimed yet, and still in an early state. */
  predicate Awaiting(s: State) {
    s.row.terms.direction.Incoming? && Early(s.row.state) && s.row.claimTx.None? && s.row.serverLockup.None?
  }

  lemma AnnouncedIsRecorded(s: State, t: TaskId, tx: LockupTx)
    requires Awaiting(s) && t !in s.tasks
    ensures var s' := Run(s, Announced(t, tx));
            && s'.row.state.Pending? && s'.row.claimTx.None? && s'.row.serverLockup == Some(tx.id)
            && s'.row.terms == s.row.terms && s'.agreed == s.agreed
            && s'.tasks.Keys == s.tasks.Keys + {t} && s'.attempts == s.attempts
            && s'.verified == s.verified + if Verifies(s.row, s.agreed, tx, true) then {tx} else {}
  {
    var a := Announced(t, tx);
    var s1 := Do(s, a[0]);
    var s2 := Do(s1, a[1]);
    var s3 := Do(s2, a[2]);
    var s4 := Do(s3, a[3]);
    assert Run(s3, a[3..]) == s4 by {
      assert a[3..] == [a[3]];
    }
    assert Run(s2, a[2..]) == Run(s3, a[3..]);
    assert Run(s1, a[1..]) == Run(s2, a[2..]);
    assert s2.tasks[t] == Task(s.row, CheckingServer(tx, true));
  }

  lemma RescanClaims(s: State, u: TaskId, height: int, id: TxId)
    requires s.row.state.Pending? && s.row.claimTx.None? && s.row.serverLockup == Some(id)
    requires u !in s.tasks && height > 0
    ensures var s' := Run(s, Rescanned(u, height));
            && s'.attempts == s.attempts + [ByBlock(id, height)] && s'.verified == s.verified
            && s'.row == s.row && s'.agreed == s.agreed
  {
    var b := Rescanned(u, height);
    var s1 := Do(s, b[0]);
    var s2 := Do(s1, b[1]);
    assert Run(s2, b[2..]) == Do(s2, b[2]) by {
      assert b[2..] == [b[2]];
    }
    assert Run(s1, b[1..]) == Run(s2, b[2..]);
  }

  /**
  Whatever is announced as confirmed to a waiting incoming swap ends up claimed by the rescan. The claimed
  lockup is a verified one exactly if the announced transaction is confirmed with the announced content
  and pays the threshold, or had been verified before.
  */
  lemma RescanClaimsVerifiedIff(s: State, t: TaskId, u: TaskId, tx: LockupTx, height: int)
    requires Inv(s) && Awaiting(s) && t !in s.tasks && u !in s.tasks && t != u && height > 0
    ensures var s' := Run(s, Announced(t, tx) + Rescanned(u, height));
            && s'.attempts == s.attempts + [ByBlock(tx.id, height)]
            && (IsVerified(s', tx.id) <==>
                || (&& tx.matches && tx.confirmed && tx.value.Some?
                    && tx.value.value >= if s.row.acceptedReceiver.Some?
                                         then s.row.acceptedReceiver.value + s.row.terms.claimFees else s.agreed)
                || IsVerified(s, tx.id))
  {
    RunAppend(s, Announced(t, tx), Rescanned(u, height));
    AnnouncedIsRecorded(s, t, tx);
    var s1 := Run(s, Announced(t, tx));
    RescanClaims(s1, u, height, tx.id);
    var s' := Run(s1, Rescanned(u, height));
    if Verifies(s.row, s.agreed, tx, true) {
      assert tx in s'.verified && Checked(s', tx);
    } else {
      assert forall x <- s.verified :: Checked(s, x) == Checked(s', x);
    }
  }

  /** An underpaid lockup announced as confirmed. */
  const UNDERPAID := LockupTx("lockup", true, true, false, Some(0))

  /** From the creation of an incoming swap: the rescan claims a lockup that failed its verification. */
  lemma IncomingRescanClaimsUnverified(s: State)
    requires Initial(s) && s.row.terms.direction.Incoming?
    requires s.row.acceptedReceiver.None? ==> s.agreed > 0
    requires s.row.acceptedReceiver.Some? ==> s.row.acceptedReceiver.value + s.row.terms.claimFees > 0
    ensures var s' := Run(s, Announced(0, UNDERPAID) + Rescanned(1, 1));
            s'.attempts == [ByBlock(UNDERPAID.id, 1)] && !IsVerified(s', UNDERPAID.id)
  {
    RescanClaimsVerifiedIff(s, 0, 1, UNDERPAID, 1);
  }

  // ----- The handler over the table -----

  datatype HandlerError = NotFound | InvalidTransition | AlreadyClaimed | NotBuilt | NotBroadcast

  /** What the claim protocol sees of the table and of the lock, with no task running. */
  function ProtocolView(rows: Table, claiming: set<SwapId>): P.System {
    P.System(map k | k in rows :: P.Cell(rows[k].claimTx, rows[k].version),
             set k <- claiming :: (0, k), map[], map[], [])
  }

  /** Only the claim columns and the version of one row differ. */
  predicate ClaimColumnsDiffer(before: Table, after: Table, id: SwapId) {
    && before.Keys == after.Keys
    && forall k <- before ::
         if k == id then
           after[k] == before[k].(claimTx := after[k].claimTx, claimAddress := after[k].claimAddress,
                                  version := after[k].version)
         else after[k] == before[k]
  }

  /** An undisturbed claim that leaves the columns so is what the protocol's run leaves. */
  lemma ClaimMatchesProtocol(before: Table, after: Table, claiming: set<SwapId>, id: SwapId,
                             built: Option<TxId>, version: nat, accepted: bool, undone: nat)
    requires id !in claiming && ClaimColumnsDiffer(before, after, id)
    requires id in before ==> before[id].version < version < undone
    requires var claimable := id in before && before[id].claimTx.None? && built.Some?;
             && (claimable ==> && after[id].claimTx == (if accepted then built else None)
                               && after[id].version == (if accepted then version else undone))
             && (!claimable ==> after == before)
    ensures var end := P.Run(ProtocolView(before, claiming), P.Claiming(0, id, built, version, accepted, undone));
            && end.rows == ProtocolView(after, claiming).rows && end.claiming == ProtocolView(after, claiming).claiming
            && (end.log != [] <==> id in before && before[id].claimTx.None? && built.Some? && accepted)
  {
    var view := ProtocolView(before, claiming);
    P.ClaimingRun(view, 0, id, built, version, accepted, undone);
    assert P.Claimed(view, 0, id, built, version, accepted, undone).rows == ProtocolView(after, claiming).rows;
  }

  /** The state the handler object keeps: the shared table and the swaps being claimed. */
  class ChainSwapHandler {
    const table: ChainSwapTable
    var claiming: set<SwapId>

    constructor (table: ChainSwapTable)
      ensures this.table == table && claiming == {}
    {
      this.table := table;
      claiming := {};
    }

    /** update_swap_info: refused updates change nothing; others change this row as UpdateInfo says. */
    method UpdateSwapInfo(id: SwapId, u: ChainUpdate) returns (res: Result<(), HandlerError>)
      modifies table
      ensures res.Ok? <==> id in old(table.rows) && ValidTransition(old(table.rows)[id].state, u.toState)
      ensures res.Err? ==> table.rows == old(table.rows)
      ensures res.Ok? ==> id in table.rows && table.rows[id].version > old(table.rows)[id].version
      ensures res.Ok? ==> table.rows[id] == UpdateInfo(old(table.rows)[id], u).value.(version := table.rows[id].version)
      ensures res.Ok? ==> Advances(old(table.rows)[id], table.rows[id])
      ensures table.rows.Keys == old(table.rows).Keys
      ensures forall k <- table.rows :: k != id ==> table.rows[k] == old(table.rows)[k]
    {
      if id !in table.rows {
        return Err(NotFound);
      }
      if !ValidTransition(table.rows[id].state, u.toState) {
        return Err(InvalidTransition);
      }
      var _ := table.Run(id, StatusUpdate(u));
      res := Ok(());
    }

    /** The first lock section of `claim`: one task at a time gets through for a swap. */
    method BeginClaim(id: SwapId) returns (entered: bool)
      modifies this
      ensures entered <==> id !in old(claiming)
      ensures claiming == old(claiming) + {id}
    {
      entered := id !in claiming;
      claiming := claiming + {id};
    }

    /** The second lock section of `claim`. */
    method EndClaim(id: SwapId)
      modifies this
      ensures claiming == old(claiming) - {id}
    {
      claiming := claiming - {id};
    }

    /** claim_inner: `built` is the claim transaction and `accepted` the answer to its broadcast. */
    method ClaimInner(id: SwapId, unused: Address, built: Option<TxId>, accepted: bool)
      returns (res: Result<(), HandlerError>, ghost version: nat, ghost undone: nat)
      modifies table
      ensures id in old(table.rows) ==> old(table.rows)[id].version < version < undone
      ensures res.Ok? <==> id in old(table.rows) && old(table.rows)[id].claimTx.None? && built.Some? && accepted
      ensures ClaimColumnsDiffer(old(table.rows), table.rows, id)
      ensures id in old(table.rows) ==>
                var row := old(table.rows)[id];
                row.claimAddress.Some? || row.terms.direction.Outgoing? ==>
                  table.rows[id].claimAddress == row.claimAddress
      ensures id in old(table.rows) ==>
                var row := old(table.rows)[id];
                row.claimAddress.None? && row.terms.direction.Incoming? ==>
                  table.rows[id].claimAddress == if row.claimTx.None? && built.Some? then Some(unused) else None
      ensures id in old(table.rows) && old(table.rows)[id].claimTx.None? && built.Some? ==>
                && table.rows[id].claimTx == (if accepted then built else None)
                && table.rows[id].version == (if accepted then version else undone)
      ensures !(id in old(table.rows) && old(table.rows)[id].claimTx.None? && built.Some?) ==>
                table.rows == old(table.rows)
    {
      if id !in table.rows {
        return Err(NotFound), 0, 0;
      }
      var swap := table.rows[id];
      version, undone := swap.version + 1, swap.version + 2;
      if swap.claimTx.Some? {
        return Err(HandlerError.AlreadyClaimed), version, undone;
      }
      if built.None? {
        return Err(NotBuilt), version, undone;
      }
      var address := if swap.terms.direction.Incoming? && swap.claimAddress.None?
      then Some(unused) else swap.claimAddress;
      var _ := table.TrySetClaim(id, address, built.value);
      version := table.rows[id].version;
      undone := version + 1;
      if accepted {
        return Ok(()), version, undone;
      }
      table.TryUnsetClaim(id, built.value);
      undone := table.rows[id].version;
      res := Err(NotBroadcast);
    }

    /** claim: an undisturbed call does to the table and the lock what its run of the protocol does. */
    method Claim(id: SwapId, unused: Address, built: Option<TxId>, accepted: bool)
      returns (res: Result<(), HandlerError>, ghost version: nat, ghost undone: nat)
      modifies this, table
      ensures claiming == old(claiming)
      ensures var end := P.Run(ProtocolView(old(table.rows), old(claiming)),
                               P.Claiming(0, id, built, version, accepted, undone));
              && end.rows == ProtocolView(table.rows, claiming).rows
              && end.claiming == ProtocolView(table.rows, claiming).claiming
              && (end.log != [] <==> res.Ok? && id !in old(claiming))
      ensures ClaimColumnsDiffer(old(table.rows), table.rows, id)
      ensures id in old(claiming) ==> res.Ok? && table.rows == old(table.rows)
      ensures id in old(table.rows) ==>
                var row := old(table.rows)[id];
                row.claimAddress.Some? || row.terms.direction.Outgoing? ==>
                  table.rows[id].claimAddress == row.claimAddress
      ensures id in old(table.rows) ==>
                var row := old(table.rows)[id];
                row.claimAddress.None? && row.terms.direction.Incoming? ==>
                  table.rows[id].claimAddress ==
                  if id !in old(claiming) && row.claimTx.None? && built.Some? then Some(unused) else None
      ensures id !in old(claiming) ==>
                (res.Ok? <==> id in old(table.rows) && old(table.rows)[id].claimTx.None? && built.Some? && accepted)
      ensures id in old(table.rows) ==>
                table.rows[id].claimTx ==
                if id !in old(claiming) && old(table.rows)[id].claimTx.None? && built.Some? && accepted then built
                else old(table.rows)[id].claimTx
    {
      ghost var before, lock := table.rows, claiming;
      var entered := BeginClaim(id);
      if !entered {
        P.LockedClaimingRun(ProtocolView(before, lock), 0, id, built, 0, accepted, 0);
        assert claiming == lock;
        return Ok(()), 0, 0;
      }
      res, version, undone := ClaimInner(id, unused, built, accepted);
      EndClaim(id);
      assert claiming == lock;
      ClaimMatchesProtocol(before, table.rows, lock, id, built, version, accepted, undone);
    }
  }
}
