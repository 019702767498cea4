/**
The claim protocol of the chain and receive handlers, over the columns it depends on.

A claim task enters the `claiming_swaps` set of its process, reads the row, builds a claim
transaction, writes its id with a compare-and-set, broadcasts, and on failure clears its own id again.
Around it run status updates and other single-row statements, insertions, and full-row writers guarded
by the version. Tasks of several processes (a main app and a notification plugin on the same database)
may run at once. Each statement, lock section and network outcome is one step.
*/
module ClaimProtocol {
  import opened Wrappers
  import opened SwapTypes

  type TaskId = nat
  type WriterId = nat
  type Process = nat

  /** The part of a swap row the protocol depends on. */
  datatype Cell = Cell(claimTx: Option<TxId>, version: nat)

  datatype Pc =
    | Checking
    | Building
    | Ready(tx: TxId)
    | InFlight(tx: TxId)
    | RollingBack(tx: TxId)
    | Leaving
    | Done

  datatype Task = Task(process: Process, id: SwapId, pc: Pc)

  datatype Held = Held(id: SwapId, seen: Cell)

  /** A claim transaction the network accepted. */
  datatype Broadcast = Broadcast(id: SwapId, tx: TxId)

  datatype System = System(
    rows: map<SwapId, Cell>,
    claiming: set<(Process, SwapId)>,
    tasks: map<TaskId, Task>,
    held: map<WriterId, Held>,
    log: seq<Broadcast>)

  datatype Event =
    | Enter(task: TaskId, process: Process, id: SwapId)
    | Check(task: TaskId)
    | Build(task: TaskId, built: Option<TxId>)
    | CompareAndSet(task: TaskId, version: nat, sqlOk: bool)
    | Send(task: TaskId, accepted: bool)
    | RollBack(task: TaskId, version: nat, sqlOk: bool)
    | Leave(task: TaskId)
    | Update(id: SwapId, fill: Option<TxId>, version: nat)
    | Insert(id: SwapId, claimTx: Option<TxId>, version: nat)
    | Fetch(writer: WriterId, id: SwapId)
    | Commit(writer: WriterId, claimTx: Option<TxId>, version: nat)

  const EMPTY := System(map[], {}, map[], map[], [])

  predicate At(s: System, t: TaskId, pc: Pc) {
    t in s.tasks && s.tasks[t].pc == pc
  }

  /** Between a successful compare-and-set and the recorded outcome of the broadcast. */
  predicate InWindow(s: System, t: TaskId) {
    t in s.tasks && (s.tasks[t].pc.InFlight? || s.tasks[t].pc.RollingBack?)
  }

  function Jump(s: System, t: TaskId, pc: Pc): System
    requires t in s.tasks
  {
    s.(tasks := s.tasks[t := s.tasks[t].(pc := pc)])
  }

  predicate Enabled(s: System, e: Event) {
    match e
    case Enter(t, _, _) => t !in s.tasks
    case Check(t) => At(s, t, Checking)
    case Build(t, _) => At(s, t, Building)
    case CompareAndSet(t, version, _) =>
      t in s.tasks && s.tasks[t].pc.Ready? && (s.tasks[t].id in s.rows ==> version > s.rows[s.tasks[t].id].version)
    case Send(t, _) => t in s.tasks && s.tasks[t].pc.InFlight?
    case RollBack(t, version, _) =>
      && t in s.tasks && s.tasks[t].pc.RollingBack?
      && (s.tasks[t].id in s.rows ==> version > s.rows[s.tasks[t].id].version)
    case Leave(t) => At(s, t, Leaving)
    case Update(id, _, version) => id in s.rows && version > s.rows[id].version
    case Insert(id, _, version) => id !in s.rows
    case Fetch(_, id) => id in s.rows
    case Commit(w, _, version) => w in s.held && s.held[w].id in s.rows && version > s.rows[s.held[w].id].version
  }

  /** The row still has the version the writer read. */
  predicate Fresh(s: System, w: WriterId) {
    w in s.held && s.held[w].id in s.rows && s.held[w].seen.version == s.rows[s.held[w].id].version
  }

  /** An event that is not enabled does not happen. */
  function Do(s: System, e: Event): System {
    if !Enabled(s, e) then s else
    match e
    case Enter(t, p, id) =>
      if (p, id) in s.claiming then s
      else s.(claiming := s.claiming + {(p, id)}, tasks := s.tasks[t := Task(p, id, Checking)])
    case Check(t) =>
      var id := s.tasks[t].id;
      Jump(s, t, if id in s.rows && s.rows[id].claimTx.None? then Building else Leaving)
    case Build(t, built) => Jump(s, t, if built.Some? then Ready(built.value) else Leaving)
    case CompareAndSet(t, version, sqlOk) =>
      var id, tx := s.tasks[t].id, s.tasks[t].pc.tx;
      if sqlOk && id in s.rows && s.rows[id].claimTx.None?
      then Jump(s.(rows := s.rows[id := Cell(Some(tx), version)]), t, InFlight(tx))
      else Jump(s, t, Leaving)
    case Send(t, accepted) =>
      var id, tx := s.tasks[t].id, s.tasks[t].pc.tx;
      if accepted then Jump(s.(log := s.log + [Broadcast(id, tx)]), t, Leaving)
      else Jump(s, t, RollingBack(tx))
    case RollBack(t, version, sqlOk) =>
      var id, tx := s.tasks[t].id, s.tasks[t].pc.tx;
      if sqlOk && id in s.rows && s.rows[id].claimTx == Some(tx)
      then Jump(s.(rows := s.rows[id := Cell(None, version)]), t, Leaving)
      else Jump(s, t, Leaving)
    case Leave(t) =>
      Jump(s.(claiming := s.claiming - {(s.tasks[t].process, s.tasks[t].id)}), t, Done)
    case Update(id, fill, version) =>
      s.(rows := s.rows[id := Cell(Coalesce(s.rows[id].claimTx, fill), version)])
    case Insert(id, claimTx, version) => s.(rows := s.rows[id := Cell(claimTx, version)])
    case Fetch(w, id) => s.(held := s.held[w := Held(id, s.rows[id])])
    case Commit(w, claimTx, version) =>
      if Fresh(s, w)
      then s.(rows := s.rows[s.held[w].id := Cell(claimTx, version)], held := s.held - {w})
      else s.(held := s.held - {w})
  }

  function Run(s: System, events: seq<Event>): System
    decreases |events|
  {
    if events == [] then s else Run(Do(s, events[0]), events[1..])
  }

  // ----- The invariant -----

  /** The set holds exactly the swaps being claimed, once per process. */
  ghost predicate GuardInv(s: System) {
    && (forall t <- s.tasks :: s.tasks[t].pc.Done? || Guarded(s, t) in s.claiming)
    && (forall t <- s.tasks, u <- s.tasks ::
          t != u && !s.tasks[t].pc.Done? && !s.tasks[u].pc.Done? ==> Guarded(s, t) != Guarded(s, u))
  }

  function Guarded(s: System, t: TaskId): (Process, SwapId)
    requires t in s.tasks
  {
    (s.tasks[t].process, s.tasks[t].id)
  }

  /** A task in its window owns the stored claim id, and is alone in doing so. */
  ghost predicate WindowInv(s: System) {
    && (forall t <- s.tasks :: InWindow(s, t) ==> Owns(s.rows, s.tasks[t].id, s.tasks[t].pc.tx))
    && (forall t <- s.tasks, u <- s.tasks ::
          InWindow(s, t) && InWindow(s, u) && t != u ==> s.tasks[t].id != s.tasks[u].id)
  }

  /** The row carries this claim id. */
  predicate Owns(rows: map<SwapId, Cell>, id: SwapId, tx: TxId) {
    id in rows && rows[id].claimTx == Some(tx)
  }

  /** An accepted claim is the stored one and the only one, and nobody is claiming over it. */
  ghost predicate LogInv(s: System) {
    && (forall i | 0 <= i < |s.log| :: Owns(s.rows, s.log[i].id, s.log[i].tx))
    && (forall i, j | 0 <= i < j < |s.log| :: s.log[i].id != s.log[j].id)
    && (forall i, t | 0 <= i < |s.log| && InWindow(s, t) :: s.tasks[t].id != s.log[i].id)
  }

  /** A row a writer holds is older than the stored one or is that very row. */
  ghost predicate HeldInv(s: System) {
    forall w <- s.held :: s.held[w].id in s.rows
                          && s.held[w].seen.version <= s.rows[s.held[w].id].version
                          && (Fresh(s, w) ==> s.held[w].seen == s.rows[s.held[w].id])
  }

  ghost predicate ClaimInv(s: System) {
    WindowInv(s) && LogInv(s) && HeldInv(s)
  }

  ghost predicate Inv(s: System) {
    GuardInv(s) && ClaimInv(s)
  }

  /** A full-row write keeps the claim id of the row it was computed from. */
  predicate KeepsClaim(s: System, e: Event) {
    e.Commit? && e.writer in s.held && s.held[e.writer].seen.claimTx.Some?
    ==> e.claimTx == s.held[e.writer].seen.claimTx
  }

  predicate AllKeepClaim(s: System, events: seq<Event>)
    decreases |events|
  {
    events == [] || (KeepsClaim(s, events[0]) && AllKeepClaim(Do(s, events[0]), events[1..]))
  }

  lemma LockStepKeepsGuard(s: System, e: Event)
    requires GuardInv(s) && (e.Enter? || e.Leave?)
    ensures GuardInv(Do(s, e))
  {
  }

  lemma TaskStepKeepsGuard(s: System, e: Event)
    requires GuardInv(s) && (e.Check? || e.Build? || e.CompareAndSet? || e.Send? || e.RollBack?)
    ensures GuardInv(Do(s, e))
  {
  }

  lemma GuardPreserved(s: System, e: Event)
    requires GuardInv(s)
    ensures GuardInv(Do(s, e))
  {
    if e.Enter? || e.Leave? {
      LockStepKeepsGuard(s, e);
    } else if e.Check? || e.Build? || e.CompareAndSet? || e.Send? || e.RollBack? {
      TaskStepKeepsGuard(s, e);
    }
  }

  lemma CasPreserved(s: System, e: Event)
    requires ClaimInv(s) && e.CompareAndSet?
    ensures ClaimInv(Do(s, e))
  {
  }

  lemma SendPreserved(s: System, e: Event)
    requires ClaimInv(s) && e.Send?
    ensures ClaimInv(Do(s, e))
  {
  }

  lemma RollBackPreserved(s: System, e: Event)
    requires ClaimInv(s) && e.RollBack?
    ensures ClaimInv(Do(s, e))
  {
  }

  lemma LockPreserved(s: System, e: Event)
    requires ClaimInv(s) && (e.Enter? || e.Leave?)
    ensures ClaimInv(Do(s, e))
  {
  }

  lemma BuildPreserved(s: System, e: Event)
    requires ClaimInv(s) && (e.Check? || e.Build?)
    ensures ClaimInv(Do(s, e))
  {
  }

  lemma RowWritePreserved(s: System, e: Event)
    requires ClaimInv(s) && (e.Update? || e.Insert? || e.Fetch?)
    ensures ClaimInv(Do(s, e))
  {
  }

  lemma CommitPreserved(s: System, e: Event)
    requires ClaimInv(s) && KeepsClaim(s, e) && e.Commit?
    ensures ClaimInv(Do(s, e))
  {
  }

  lemma StepPreservesInv(s: System, e: Event)
    requires Inv(s) && KeepsClaim(s, e)
    ensures Inv(Do(s, e))
  {
    GuardPreserved(s, e);
    match e
    case Enter(_, _, _) => LockPreserved(s, e);
    case Check(_) => BuildPreserved(s, e);
    case Build(_, _) => BuildPreserved(s, e);
    case CompareAndSet(_, _, _) => CasPreserved(s, e);
    case Send(_, _) => SendPreserved(s, e);
    case RollBack(_, _, _) => RollBackPreserved(s, e);
    case Leave(_) => LockPreserved(s, e);
    case Update(_, _, _) => RowWritePreserved(s, e);
    case Insert(_, _, _) => RowWritePreserved(s, e);
    case Fetch(_, _) => RowWritePreserved(s, e);
    case Commit(_, _, _) => CommitPreserved(s, e);
  }

  lemma {:induction false} RunPreservesInv(s: System, events: seq<Event>)
    requires Inv(s) && AllKeepClaim(s, events)
    ensures Inv(Run(s, events))
    decreases |events|
  {
    if events != [] {
      StepPreservesInv(s, events[0]);
      RunPreservesInv(Do(s, events[0]), events[1..]);
    }
  }

  // ----- Whole runs -----

  /** At most one task is between its compare-and-set and its outcome, and it owns the stored id throughout. */
  lemma OneTaskInWindow(events: seq<Event>, t: TaskId, u: TaskId)
    requires AllKeepClaim(EMPTY, events)
    ensures var s := Run(EMPTY, events);
            && (InWindow(s, t) ==> Owns(s.rows, s.tasks[t].id, s.tasks[t].pc.tx))
            && (InWindow(s, t) && InWindow(s, u) && s.tasks[t].id == s.tasks[u].id ==> t == u)
  {
    RunPreservesInv(EMPTY, events);
  }

  /** The lock lets one task per process and swap through, whatever the full-row writers do to the rows. */
  lemma {:induction false} OneTaskPerProcess(s: System, events: seq<Event>)
    requires GuardInv(s)
    ensures GuardInv(Run(s, events))
    decreases |events|
  {
    if events != [] {
      GuardPreserved(s, events[0]);
      OneTaskPerProcess(Do(s, events[0]), events[1..]);
    }
  }

  lemma StepGrowsLog(s: System, e: Event)
    ensures s.log <= Do(s, e).log
  {
  }

  lemma {:induction false} LogGrows(s: System, events: seq<Event>)
    ensures s.log <= Run(s, events).log
    decreases |events|
  {
    if events != [] {
      StepGrowsLog(s, events[0]);
      LogGrows(Do(s, events[0]), events[1..]);
    }
  }

  /** The swap of an accepted claim has no other one, neither accepted nor being broadcast. */
  ghost predicate OnlyClaim(s: System, c: Broadcast) {
    && (forall d <- s.log :: d.id == c.id ==> d == c)
    && (forall i, j | 0 <= i < j < |s.log| :: !(s.log[i].id == c.id && s.log[j].id == c.id))
    && (forall t <- s.tasks :: InWindow(s, t) ==> s.tasks[t].id != c.id)
  }

  lemma LoggedIsOnlyClaim(s: System, c: Broadcast)
    requires Inv(s) && c in s.log
    ensures Owns(s.rows, c.id, c.tx) && OnlyClaim(s, c)
  {
  }

  /**
  A claim accepted at some point stays stored for the rest of the run, and no other claim of the swap is
  accepted or even broadcast.
  */
  lemma AcceptedClaimIsFinal(before: seq<Event>, after: seq<Event>, c: Broadcast)
    requires AllKeepClaim(EMPTY, before) && AllKeepClaim(Run(EMPTY, before), after)
    requires c in Run(EMPTY, before).log
    ensures var end := Run(Run(EMPTY, before), after);
            Owns(end.rows, c.id, c.tx) && OnlyClaim(end, c)
  {
    RunPreservesInv(EMPTY, before);
    RunPreservesInv(Run(EMPTY, before), after);
    LogGrows(Run(EMPTY, before), after);
    LoggedIsOnlyClaim(Run(Run(EMPTY, before), after), c);
  }

  /** A failing task's rollback changes at most the row it claims, from its own id to none. */
  lemma RollBackClearsOwnIdOnly(s: System, t: TaskId, version: nat, sqlOk: bool)
    requires Inv(s) && Enabled(s, RollBack(t, version, sqlOk))
    ensures var rows := Do(s, RollBack(t, version, sqlOk)).rows;
            var id := s.tasks[t].id;
            && id in s.rows && s.rows[id].claimTx == Some(s.tasks[t].pc.tx)
            && rows == (if sqlOk then s.rows[id := Cell(None, version)] else s.rows)
            && (forall c <- s.log :: c.id != id)
  {
    assert InWindow(s, t);
  }

  // ----- What the full-row writers have to guarantee -----

  /** Somebody is broadcasting, or has broadcast, a claim of this swap. */
  ghost predicate ReliedOn(s: System, id: SwapId) {
    (exists t <- s.tasks :: InWindow(s, t) && s.tasks[t].id == id) || (exists c <- s.log :: c.id == id)
  }

  /** A full-row write is harmless exactly if it is refused, keeps the claim id, or nobody relies on that id. */
  lemma CommitHarmlessIff(s: System, w: WriterId, claimTx: Option<TxId>, version: nat)
    requires Inv(s) && Enabled(s, Commit(w, claimTx, version))
    ensures Inv(Do(s, Commit(w, claimTx, version))) <==>
            (Fresh(s, w) && ReliedOn(s, s.held[w].id) ==> claimTx == s.held[w].seen.claimTx)
  {
    var id, s' := s.held[w].id, Do(s, Commit(w, claimTx, version));
    if Fresh(s, w) {
      if t :| t in s.tasks && InWindow(s, t) && s.tasks[t].id == id {
        assert InWindow(s', t) && s'.tasks[t] == s.tasks[t];
      } else if c :| c in s.log && c.id == id {
        assert c in s'.log;
      } else {
        UnrelatedCommit(s, w, claimTx, version);
      }
      if claimTx == s.held[w].seen.claimTx {
        StepPreservesInv(s, Commit(w, claimTx, version));
      }
    }
  }

  lemma UnrelatedCommit(s: System, w: WriterId, claimTx: Option<TxId>, version: nat)
    requires Inv(s) && Enabled(s, Commit(w, claimTx, version)) && Fresh(s, w)
    requires !ReliedOn(s, s.held[w].id)
    ensures Inv(Do(s, Commit(w, claimTx, version)))
  {
    var s' := Do(s, Commit(w, claimTx, version));
    assert forall t :: InWindow(s', t) == InWindow(s, t);
    assert forall t | InWindow(s, t) :: s.tasks[t].id != s.held[w].id;
    assert forall i | 0 <= i < |s.log| :: s.log[i] in s.log;
  }

  lemma RunCons(s: System, e: Event, rest: seq<Event>)
    ensures Run(s, [e] + rest) == Run(Do(s, e), rest)
  {
    assert ([e] + rest)[1..] == rest;
  }

  // ----- One undisturbed claim -----

  /** The steps of one call of `claim`; those the call does not reach are not enabled and do nothing. */
  function Claiming(t: TaskId, id: SwapId, built: Option<TxId>, version: nat, accepted: bool, undone: nat): seq<Event> {
    [Enter(t, 0, id)] + ([Check(t)] + ([Build(t, built)] + Broadcasting(t, version, accepted, undone)))
  }

  function Broadcasting(t: TaskId, version: nat, accepted: bool, undone: nat): seq<Event> {
    [CompareAndSet(t, version, true)] + ([Send(t, accepted)] + ([RollBack(t, undone, true)] + ([Leave(t)] + [])))
  }

  lemma LeavingRun(s: System, t: TaskId, version: nat, accepted: bool, undone: nat)
    requires At(s, t, Leaving)
    ensures Run(s, Broadcasting(t, version, accepted, undone)) == Do(s, Leave(t))
  {
    RunCons(s, CompareAndSet(t, version, true),
            [Send(t, accepted)] + ([RollBack(t, undone, true)] + ([Leave(t)] + [])));
    RunCons(s, Send(t, accepted), [RollBack(t, undone, true)] + ([Leave(t)] + []));
    RunCons(s, RollBack(t, undone, true), [Leave(t)] + []);
    RunCons(s, Leave(t), []);
  }

  lemma BroadcastingRun(s: System, t: TaskId, version: nat, accepted: bool, undone: nat)
    requires t in s.tasks && s.tasks[t].pc.Ready? && s.tasks[t].id in s.rows
    requires s.rows[s.tasks[t].id].version < version < undone && s.rows[s.tasks[t].id].claimTx.None?
    ensures var id, tx := s.tasks[t].id, s.tasks[t].pc.tx;
            Run(s, Broadcasting(t, version, accepted, undone)) ==
            Do(Jump(s.(rows := s.rows[id := if accepted then Cell(Some(tx), version) else Cell(None, undone)],
                    log := s.log + if accepted then [Broadcast(id, tx)] else []), t, Leaving), Leave(t))
  {
    var id, tx := s.tasks[t].id, s.tasks[t].pc.tx;
    var s1 := Do(s, CompareAndSet(t, version, true));
    var s2 := Do(s1, Send(t, accepted));
    var s3 := Do(s2, RollBack(t, undone, true));
    RunCons(s, CompareAndSet(t, version, true),
            [Send(t, accepted)] + ([RollBack(t, undone, true)] + ([Leave(t)] + [])));
    RunCons(s1, Send(t, accepted), [RollBack(t, undone, true)] + ([Leave(t)] + []));
    RunCons(s2, RollBack(t, undone, true), [Leave(t)] + []);
    RunCons(s3, Leave(t), []);
    assert s3.rows == s.rows[id := if accepted then Cell(Some(tx), version) else Cell(None, undone)];
    assert s3.tasks == s.tasks[t := s.tasks[t].(pc := Leaving)];
    assert s3.log == s.log + if accepted then [Broadcast(id, tx)] else [];
  }

  /** The call finds an unclaimed row and gets a transaction built for it. */
  predicate Claimable(s: System, id: SwapId, built: Option<TxId>) {
    id in s.rows && s.rows[id].claimTx.None? && built.Some?
  }

  /** What the call leaves: the accepted id, or after a refusal no id, and the lock as it found it. */
  function Claimed(s: System, t: TaskId, id: SwapId, built: Option<TxId>, version: nat, accepted: bool, undone: nat)
    : System
  {
    var s' := s.(tasks := s.tasks[t := Task(0, id, Done)]);
    if !Claimable(s, id, built) then s'
    else if accepted then s'.(rows := s.rows[id := Cell(built, version)], log := s.log + [Broadcast(id, built.value)])
    else s'.(rows := s.rows[id := Cell(None, undone)])
  }

  lemma PreparingRun(s: System, t: TaskId, id: SwapId, built: Option<TxId>, rest: seq<Event>)
    requires t !in s.tasks && (0, id) !in s.claiming
    ensures var pc := if Claimable(s, id, built) then Ready(built.value) else Leaving;
            Run(s, [Enter(t, 0, id)] + ([Check(t)] + ([Build(t, built)] + rest))) ==
            Run(s.(claiming := s.claiming + {(0, id)}, tasks := s.tasks[t := Task(0, id, pc)]), rest)
  {
    var s1 := Do(s, Enter(t, 0, id));
    var s2 := Do(s1, Check(t));
    var s3 := Do(s2, Build(t, built));
    RunCons(s, Enter(t, 0, id), [Check(t)] + ([Build(t, built)] + rest));
    RunCons(s1, Check(t), [Build(t, built)] + rest);
    RunCons(s2, Build(t, built), rest);
    assert s3.tasks == s.tasks[t := Task(0, id, if Claimable(s, id, built) then Ready(built.value) else Leaving)];
  }

  lemma ClaimingRun(s: System, t: TaskId, id: SwapId, built: Option<TxId>, version: nat, accepted: bool, undone: nat)
    requires t !in s.tasks && (0, id) !in s.claiming
    requires id in s.rows ==> s.rows[id].version < version < undone
    ensures Run(s, Claiming(t, id, built, version, accepted, undone)) ==
            Claimed(s, t, id, built, version, accepted, undone)
  {
    var pc := if Claimable(s, id, built) then Ready(built.value) else Leaving;
    var s3 := s.(claiming := s.claiming + {(0, id)}, tasks := s.tasks[t := Task(0, id, pc)]);
    PreparingRun(s, t, id, built, Broadcasting(t, version, accepted, undone));
    if Claimable(s, id, built) {
      BroadcastingRun(s3, t, version, accepted, undone);
    } else {
      LeavingRun(s3, t, version, accepted, undone);
    }
    var end := Run(s3, Broadcasting(t, version, accepted, undone));
    assert end.claiming == s.claiming && end.tasks == s.tasks[t := Task(0, id, Done)];
  }

  /** A claim is a task of its own and takes over no running one. */
  lemma RunningTasksStay(s: System, t: TaskId, p: Process, id: SwapId)
    requires t in s.tasks
    ensures Do(s, Enter(t, p, id)) == s
  {
  }

  /** A call that finds the swap being claimed already does nothing. */
  lemma LockedClaimingRun(s: System, t: TaskId, id: SwapId, built: Option<TxId>, version: nat, accepted: bool,
                          undone: nat)
    requires t !in s.tasks && (0, id) in s.claiming
    ensures Run(s, Claiming(t, id, built, version, accepted, undone)) == s
  {
    var rest := Broadcasting(t, version, accepted, undone);
    RunCons(s, Enter(t, 0, id), [Check(t)] + ([Build(t, built)] + rest));
    RunCons(s, Check(t), [Build(t, built)] + rest);
    RunCons(s, Build(t, built), rest);
    RunCons(s, CompareAndSet(t, version, true),
            [Send(t, accepted)] + ([RollBack(t, undone, true)] + ([Leave(t)] + [])));
    RunCons(s, Send(t, accepted), [RollBack(t, undone, true)] + ([Leave(t)] + []));
    RunCons(s, RollBack(t, undone, true), [Leave(t)] + []);
    RunCons(s, Leave(t), []);
  }
}
