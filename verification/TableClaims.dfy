/**
The claim protocol on a whole table of swaps, for any kind of row: with the statements of its store and
its full-row writers. Each step of the table is matched by a step of the protocol on the claim columns, so
what holds of the protocol holds of the table.
*/
module TableClaims {
  import opened Wrappers
  import opened SwapTypes
  import P = ClaimProtocol

  type Table<Row> = map<SwapId, Row>

  /**
  What the protocol has to know of a store: the claim columns of a row, the effect of a statement and of a
  full-row write on the table, and the statements of the protocol. `setClaim` may write an address along.
  `fill` is the claim id a statement offers, `propose` what a full-row writer makes of the row it read, and
  `sound` the condition under which that keeps a claim id.
  */
  datatype Store<!Row, !Stmt, !Rewrite> = Store(
    cell: Row -> P.Cell,
    execute: (Table<Row>, SwapId, Stmt, nat) -> Table<Row>,
    upsert: (Table<Row>, SwapId, Row, nat) -> Table<Row>,
    setClaim: (Option<Address>, TxId) -> Stmt,
    unsetClaim: TxId -> Stmt,
    claims: Stmt -> bool,
    fill: Stmt -> Option<TxId>,
    propose: (Rewrite, Row) -> Row,
    sound: (Rewrite, Row) -> bool)

  function Columns<Row, Stmt, Rewrite>(st: Store<Row, Stmt, Rewrite>, table: Table<Row>): map<SwapId, P.Cell> {
    map id | id in table :: st.cell(table[id])
  }

  /** The guarded claim statements write the claim id exactly if their guard holds. */
  predicate SetClaimLaw<Row, Stmt, Rewrite>(
      st: Store<Row, Stmt, Rewrite>, table: Table<Row>, id: SwapId, address: Option<Address>, tx: TxId, version: nat) {
    Columns(st, st.execute(table, id, st.setClaim(address, tx), version)) ==
    if id in table && st.cell(table[id]).claimTx.None? then Columns(st, table)[id := P.Cell(Some(tx), version)]
    else Columns(st, table)
  }

  predicate UnsetClaimLaw<Row, Stmt, Rewrite>(
      st: Store<Row, Stmt, Rewrite>, table: Table<Row>, id: SwapId, tx: TxId, version: nat) {
    Columns(st, st.execute(table, id, st.unsetClaim(tx), version)) ==
    if id in table && st.cell(table[id]).claimTx == Some(tx) then Columns(st, table)[id := P.Cell(None, version)]
    else Columns(st, table)
  }

  /** Other statements fill an absent claim id at most. */
  predicate StatementLaw<Row, Stmt, Rewrite>(
      st: Store<Row, Stmt, Rewrite>, table: Table<Row>, id: SwapId, stmt: Stmt, version: nat) {
    id in table && !st.claims(stmt) ==>
      Columns(st, st.execute(table, id, stmt, version)) ==
      Columns(st, table)[id := P.Cell(Coalesce(st.cell(table[id]).claimTx, st.fill(stmt)), version)]
  }

  /** A full-row write is guarded by the version. */
  predicate UpsertLaw<Row, Stmt, Rewrite>(
      st: Store<Row, Stmt, Rewrite>, table: Table<Row>, id: SwapId, row: Row, version: nat) {
    Columns(st, st.upsert(table, id, row, version)) ==
    if (if id in table then st.cell(table[id]).version else 0) == st.cell(row).version
    then Columns(st, table)[id := P.Cell(st.cell(row).claimTx, version)]
    else Columns(st, table)
  }

  /** A full-row writer proposes the version it read, and keeps a claim id it read exactly if it is sound. */
  predicate RewriteLaw<Row, Stmt, Rewrite>(st: Store<Row, Stmt, Rewrite>, rewrite: Rewrite, seen: Row) {
    && st.cell(st.propose(rewrite, seen)).version == st.cell(seen).version
    && (st.cell(seen).claimTx.Some? ==>
          (st.sound(rewrite, seen) <==> st.cell(st.propose(rewrite, seen)).claimTx == st.cell(seen).claimTx))
  }

  ghost predicate Lawful<Row(!new), Stmt(!new), Rewrite(!new)>(st: Store<Row, Stmt, Rewrite>) {
    && (forall table, id, address, tx, version :: SetClaimLaw(st, table, id, address, tx, version))
    && (forall table, id, tx, version :: UnsetClaimLaw(st, table, id, tx, version))
    && (forall table, id, stmt, version :: StatementLaw(st, table, id, stmt, version))
    && (forall table, id, row, version :: UpsertLaw(st, table, id, row, version))
    && (forall rewrite, seen :: RewriteLaw(st, rewrite, seen))
  }

  // ----- Runs of the table -----

  datatype Held<Row> = Held(id: SwapId, seen: Row)

  /** The table, the rows the full-row writers hold, and the tasks with the claim columns they work on. */
  datatype World<Row> = World(table: Table<Row>, held: map<P.WriterId, Held<Row>>, sys: P.System)

  datatype Event<Row, Stmt, Rewrite> =
    | TaskStep(step: P.Event, address: Option<Address>)
    | Sql(id: SwapId, stmt: Stmt, version: nat)
    | Create(id: SwapId, swap: Row, version: nat)
    | Read(writer: P.WriterId, id: SwapId)
    | Write(writer: P.WriterId, rewrite: Rewrite, version: nat)

  predicate IsTaskStep(e: P.Event) {
    e.Enter? || e.Check? || e.Build? || e.CompareAndSet? || e.Send? || e.RollBack? || e.Leave?
  }

  predicate Enabled<Row, Stmt, Rewrite>(st: Store<Row, Stmt, Rewrite>, w: World<Row>, e: Event<Row, Stmt, Rewrite>) {
    match e
    case TaskStep(step, _) => IsTaskStep(step) && P.Enabled(w.sys, step)
    case Sql(id, stmt, version) => !st.claims(stmt) && id in w.table && version > st.cell(w.table[id]).version
    case Create(id, swap, _) => id !in w.table && st.cell(swap).version == 0
    case Read(_, id) => id in w.table
    case Write(writer, _, version) =>
      writer in w.held && w.held[writer].id in w.table && version > st.cell(w.table[w.held[writer].id]).version
  }

  /** The step of the protocol that matches an event. */
  function Matching<Row, Stmt, Rewrite>(st: Store<Row, Stmt, Rewrite>, w: World<Row>, e: Event<Row, Stmt, Rewrite>)
    : P.Event
  {
    match e
    case TaskStep(step, _) => step
    case Sql(id, stmt, version) => P.Update(id, st.fill(stmt), version)
    case Create(id, swap, version) => P.Insert(id, st.cell(swap).claimTx, version)
    case Read(writer, id) => P.Fetch(writer, id)
    case Write(writer, rewrite, version) =>
      P.Commit(writer,
               if writer in w.held then st.cell(st.propose(rewrite, w.held[writer].seen)).claimTx else None,
               version)
  }

  /** The table after an enabled event. */
  function NextTable<Row, Stmt, Rewrite>(st: Store<Row, Stmt, Rewrite>, w: World<Row>, e: Event<Row, Stmt, Rewrite>)
    : Table<Row>
    requires Enabled(st, w, e)
  {
    match e
    case TaskStep(CompareAndSet(t, version, true), address) =>
      st.execute(w.table, w.sys.tasks[t].id, st.setClaim(address, w.sys.tasks[t].pc.tx), version)
    case TaskStep(RollBack(t, version, true), _) =>
      st.execute(w.table, w.sys.tasks[t].id, st.unsetClaim(w.sys.tasks[t].pc.tx), version)
    case TaskStep(_, _) => w.table
    case Sql(id, stmt, version) => st.execute(w.table, id, stmt, version)
    case Create(id, swap, version) => st.upsert(w.table, id, swap, version)
    case Read(_, _) => w.table
    case Write(writer, rewrite, version) =>
      st.upsert(w.table, w.held[writer].id, st.propose(rewrite, w.held[writer].seen), version)
  }

  function Do<Row, Stmt, Rewrite>(st: Store<Row, Stmt, Rewrite>, w: World<Row>, e: Event<Row, Stmt, Rewrite>)
    : World<Row>
  {
    if !Enabled(st, w, e) then w else
    World(NextTable(st, w, e),
          match e
          case Read(writer, id) => w.held[writer := Held(id, w.table[id])]
          case Write(writer, _, _) => w.held - {writer}
          case _ => w.held,
          P.Do(w.sys, Matching(st, w, e)))
  }

  function Run<Row, Stmt, Rewrite>(st: Store<Row, Stmt, Rewrite>, w: World<Row>, events: seq<Event<Row, Stmt, Rewrite>>)
    : World<Row>
    decreases |events|
  {
    if events == [] then w else Run(st, Do(st, w, events[0]), events[1..])
  }

  function Empty<Row>(): World<Row> {
    World(map[], map[], P.EMPTY)
  }

  // ----- Simulation -----

  /** The tasks and writers see the claim columns of the very table. */
  ghost predicate Simulates<Row, Stmt, Rewrite>(st: Store<Row, Stmt, Rewrite>, w: World<Row>) {
    && w.sys.rows == Columns(st, w.table)
    && w.sys.held.Keys == w.held.Keys
    && (forall k <- w.held :: w.sys.held[k] == P.Held(w.held[k].id, st.cell(w.held[k].seen)))
  }

  lemma CompareAndSetSimulated<Row(!new), Stmt(!new), Rewrite(!new)>(
      st: Store<Row, Stmt, Rewrite>, w: World<Row>, e: Event<Row, Stmt, Rewrite>)
    requires Lawful(st) && Simulates(st, w) && e.TaskStep? && Enabled(st, w, e)
    requires e.step.CompareAndSet?
    ensures Simulates(st, Do(st, w, e))
  {
    var task := w.sys.tasks[e.step.task];
    assert SetClaimLaw(st, w.table, task.id, e.address, task.pc.tx, e.step.version);
  }

  lemma RollBackSimulated<Row(!new), Stmt(!new), Rewrite(!new)>(
      st: Store<Row, Stmt, Rewrite>, w: World<Row>, e: Event<Row, Stmt, Rewrite>)
    requires Lawful(st) && Simulates(st, w) && e.TaskStep? && Enabled(st, w, e)
    requires e.step.RollBack?
    ensures Simulates(st, Do(st, w, e))
  {
    var task := w.sys.tasks[e.step.task];
    assert UnsetClaimLaw(st, w.table, task.id, task.pc.tx, e.step.version);
  }

  lemma TaskStepSimulated<Row(!new), Stmt(!new), Rewrite(!new)>(
      st: Store<Row, Stmt, Rewrite>, w: World<Row>, e: Event<Row, Stmt, Rewrite>)
    requires Lawful(st) && Simulates(st, w) && e.TaskStep? && Enabled(st, w, e)
    ensures Simulates(st, Do(st, w, e))
  {
    if e.step.CompareAndSet? {
      CompareAndSetSimulated(st, w, e);
    } else if e.step.RollBack? {
      RollBackSimulated(st, w, e);
    }
  }

  lemma TableStepSimulated<Row(!new), Stmt(!new), Rewrite(!new)>(
      st: Store<Row, Stmt, Rewrite>, w: World<Row>, e: Event<Row, Stmt, Rewrite>)
    requires Lawful(st) && Simulates(st, w) && (e.Sql? || e.Create? || e.Read?) && Enabled(st, w, e)
    ensures Simulates(st, Do(st, w, e))
  {
    if e.Sql? {
      assert StatementLaw(st, w.table, e.id, e.stmt, e.version);
    } else if e.Create? {
      assert UpsertLaw(st, w.table, e.id, e.swap, e.version);
    }
  }

  lemma WriteSimulated<Row(!new), Stmt(!new), Rewrite(!new)>(
      st: Store<Row, Stmt, Rewrite>, w: World<Row>, e: Event<Row, Stmt, Rewrite>)
    requires Lawful(st) && Simulates(st, w) && e.Write? && Enabled(st, w, e)
    ensures Simulates(st, Do(st, w, e))
  {
    var Held(id, seen) := w.held[e.writer];
    assert RewriteLaw(st, e.rewrite, seen);
    assert w.sys.held[e.writer] == P.Held(id, st.cell(seen));
    assert UpsertLaw(st, w.table, id, st.propose(e.rewrite, seen), e.version);
    assert P.Fresh(w.sys, e.writer) <==> st.cell(w.table[id]).version == st.cell(seen).version;
  }

  /** A statement besides those of the protocol takes effect whenever its row exists. */
  lemma StatementTakesEffect<Row, Stmt, Rewrite>(
      st: Store<Row, Stmt, Rewrite>, w: World<Row>, id: SwapId, stmt: Stmt, version: nat)
    requires !st.claims(stmt) && id in w.table && version > st.cell(w.table[id]).version
    ensures Do(st, w, Sql(id, stmt, version)).table == st.execute(w.table, id, stmt, version)
  {
    var e: Event<Row, Stmt, Rewrite> := Sql(id, stmt, version);
    assert Enabled(st, w, e);
  }

  lemma StepSimulated<Row(!new), Stmt(!new), Rewrite(!new)>(
      st: Store<Row, Stmt, Rewrite>, w: World<Row>, e: Event<Row, Stmt, Rewrite>)
    requires Lawful(st) && Simulates(st, w)
    ensures Simulates(st, Do(st, w, e))
  {
    if Enabled(st, w, e) {
      if e.TaskStep? {
        TaskStepSimulated(st, w, e);
      } else if e.Write? {
        WriteSimulated(st, w, e);
      } else {
        TableStepSimulated(st, w, e);
      }
    }
  }

  /** A full-row write is sound if it keeps a claim id it read. */
  predicate Sound<Row, Stmt, Rewrite>(st: Store<Row, Stmt, Rewrite>, w: World<Row>, e: Event<Row, Stmt, Rewrite>) {
    e.Write? && e.writer in w.held && st.cell(w.held[e.writer].seen).claimTx.Some? ==>
      st.sound(e.rewrite, w.held[e.writer].seen)
  }

  predicate AllSound<Row, Stmt, Rewrite>(
      st: Store<Row, Stmt, Rewrite>, w: World<Row>, events: seq<Event<Row, Stmt, Rewrite>>)
    decreases |events|
  {
    events == [] || (Sound(st, w, events[0]) && AllSound(st, Do(st, w, events[0]), events[1..]))
  }

  lemma SoundIsKeepsClaim<Row(!new), Stmt(!new), Rewrite(!new)>(
      st: Store<Row, Stmt, Rewrite>, w: World<Row>, e: Event<Row, Stmt, Rewrite>)
    requires Lawful(st) && Simulates(st, w) && Enabled(st, w, e)
    ensures Sound(st, w, e) <==> P.KeepsClaim(w.sys, Matching(st, w, e))
  {
    if e.Write? {
      var Held(id, seen) := w.held[e.writer];
      assert RewriteLaw(st, e.rewrite, seen);
      assert w.sys.held[e.writer] == P.Held(id, st.cell(seen));
    }
  }

  lemma StepKeepsProtocol<Row(!new), Stmt(!new), Rewrite(!new)>(
      st: Store<Row, Stmt, Rewrite>, w: World<Row>, e: Event<Row, Stmt, Rewrite>)
    requires Lawful(st) && Simulates(st, w) && P.Inv(w.sys) && Sound(st, w, e)
    ensures Simulates(st, Do(st, w, e)) && P.Inv(Do(st, w, e).sys)
    ensures w.sys.log <= Do(st, w, e).sys.log
  {
    if Enabled(st, w, e) {
      StepSimulated(st, w, e);
      SoundIsKeepsClaim(st, w, e);
      P.StepPreservesInv(w.sys, Matching(st, w, e));
      P.StepGrowsLog(w.sys, Matching(st, w, e));
    }
  }

  lemma {:induction false} RunKeepsProtocol<Row(!new), Stmt(!new), Rewrite(!new)>(
      st: Store<Row, Stmt, Rewrite>, w: World<Row>, events: seq<Event<Row, Stmt, Rewrite>>)
    requires Lawful(st) && Simulates(st, w) && P.Inv(w.sys) && AllSound(st, w, events)
    ensures Simulates(st, Run(st, w, events)) && P.Inv(Run(st, w, events).sys)
    ensures w.sys.log <= Run(st, w, events).sys.log
    decreases |events|
  {
    if events != [] {
      StepKeepsProtocol(st, w, events[0]);
      RunKeepsProtocol(st, Do(st, w, events[0]), events[1..]);
    }
  }

  /** In every run of the table one task at most is claiming a swap, and the row carries its id. */
  lemma RowCarriesTheClaimInFlight<Row(!new), Stmt(!new), Rewrite(!new)>(
      st: Store<Row, Stmt, Rewrite>, events: seq<Event<Row, Stmt, Rewrite>>, t: P.TaskId, u: P.TaskId)
    requires Lawful(st) && AllSound(st, Empty(), events)
    ensures var w := Run(st, Empty(), events);
            && (P.InWindow(w.sys, t) ==> P.Owns(Columns(st, w.table), w.sys.tasks[t].id, w.sys.tasks[t].pc.tx))
            && (P.InWindow(w.sys, t) && P.InWindow(w.sys, u) && w.sys.tasks[t].id == w.sys.tasks[u].id ==> t == u)
  {
    RunKeepsProtocol(st, Empty(), events);
    var w := Run(st, Empty(), events);
    if P.InWindow(w.sys, t) {
      assert P.Owns(w.sys.rows, w.sys.tasks[t].id, w.sys.tasks[t].pc.tx);
    }
  }

  lemma {:induction false} RunAppend<Row, Stmt, Rewrite>(
      st: Store<Row, Stmt, Rewrite>, w: World<Row>,
      a: seq<Event<Row, Stmt, Rewrite>>, b: seq<Event<Row, Stmt, Rewrite>>)
    ensures Run(st, w, a + b) == Run(st, Run(st, w, a), b)
    ensures AllSound(st, w, a + b) ==> AllSound(st, w, a) && AllSound(st, Run(st, w, a), b)
    decreases |a|
  {
    if a == [] {
      assert a + b == b;
    } else {
      assert (a + b)[1..] == a[1..] + b;
      RunAppend(st, Do(st, w, a[0]), a[1..], b);
    }
  }

  /**
  A claim the network accepted stays in the table for the rest of every run, as the only one of its swap,
  and no task is broadcasting another one, whatever the network would say to it.
  */
  lemma AcceptedClaimStaysStored<Row(!new), Stmt(!new), Rewrite(!new)>(
      st: Store<Row, Stmt, Rewrite>, before: seq<Event<Row, Stmt, Rewrite>>, after: seq<Event<Row, Stmt, Rewrite>>,
      c: P.Broadcast)
    requires Lawful(st) && AllSound(st, Empty(), before + after)
    requires c in Run(st, Empty(), before).sys.log
    ensures var w := Run(st, Empty(), before + after);
            && P.Owns(Columns(st, w.table), c.id, c.tx)
            && P.OnlyClaim(w.sys, c)
  {
    RunAppend(st, Empty(), before, after);
    RunKeepsProtocol(st, Empty(), before);
    RunKeepsProtocol(st, Run(st, Empty(), before), after);
    var w := Run(st, Empty(), before + after);
    assert c in w.sys.log;
    P.LoggedIsOnlyClaim(w.sys, c);
  }

  // ----- A full-row write that drops a claim id -----

  /** A sequence of task steps of the protocol, as steps of the table. */
  function Lift<Row, Stmt, Rewrite>(steps: seq<P.Event>): seq<Event<Row, Stmt, Rewrite>> {
    seq(|steps|, i requires 0 <= i < |steps| => TaskStep(steps[i], None))
  }

  lemma {:induction false} LiftRun<Row(!new), Stmt(!new), Rewrite(!new)>(
      st: Store<Row, Stmt, Rewrite>, w: World<Row>, steps: seq<P.Event>)
    requires Lawful(st) && Simulates(st, w) && forall e <- steps :: IsTaskStep(e)
    ensures var w' := Run(st, w, Lift(steps));
            Simulates(st, w') && w'.sys == P.Run(w.sys, steps) && w'.held == w.held
    decreases |steps|
  {
    var events: seq<Event<Row, Stmt, Rewrite>> := Lift(steps);
    if steps != [] {
      assert steps[0] in steps;
      StepSimulated(st, w, events[0]);
      assert events[1..] == Lift(steps[1..]);
      LiftRun(st, Do(st, w, events[0]), steps[1..]);
    }
  }

  /** A writer that makes no claim id of whatever it read. */
  ghost predicate Drops<Row(!new), Stmt, Rewrite>(st: Store<Row, Stmt, Rewrite>, rewrite: Rewrite) {
    forall seen :: st.cell(st.propose(rewrite, seen)).claimTx.None?
  }

  lemma ReadsRow<Row(!new), Stmt(!new), Rewrite(!new)>(st: Store<Row, Stmt, Rewrite>, w: World<Row>, id: SwapId)
    requires Lawful(st) && Simulates(st, w) && id in w.sys.rows
    ensures var w' := Do(st, w, Read(0, id));
            && Simulates(st, w') && w'.sys == w.sys.(held := w.sys.held[0 := P.Held(id, w.sys.rows[id])])
  {
    var e: Event<Row, Stmt, Rewrite> := Read(0, id);
    StepSimulated(st, w, e);
  }

  lemma WritesDropped<Row(!new), Stmt(!new), Rewrite(!new)>(
      st: Store<Row, Stmt, Rewrite>, w: World<Row>, id: SwapId, rewrite: Rewrite, version: nat)
    requires Lawful(st) && Simulates(st, w) && Drops(st, rewrite)
    requires id in w.sys.rows && w.sys.rows[id].version < version
    requires 0 in w.sys.held && w.sys.held[0] == P.Held(id, w.sys.rows[id])
    ensures var w' := Do(st, w, Write(0, rewrite, version));
            && Simulates(st, w')
            && w'.sys == w.sys.(rows := w.sys.rows[id := P.Cell(None, version)], held := w.sys.held - {0})
  {
    var e: Event<Row, Stmt, Rewrite> := Write(0, rewrite, version);
    StepSimulated(st, w, e);
    assert Enabled(st, w, e) && P.Fresh(w.sys, 0);
  }

  lemma RunTwo<Row, Stmt, Rewrite>(
      st: Store<Row, Stmt, Rewrite>, w: World<Row>, d: Event<Row, Stmt, Rewrite>, e: Event<Row, Stmt, Rewrite>)
    ensures Run(st, w, [d, e]) == Do(st, Do(st, w, d), e)
  {
    assert [d, e][1..] == [e];
    assert Run(st, Do(st, w, d), [e]) == Run(st, Do(st, Do(st, w, d), e), [e][1..]);
  }

  lemma DroppingWrite<Row(!new), Stmt(!new), Rewrite(!new)>(
      st: Store<Row, Stmt, Rewrite>, w: World<Row>, id: SwapId, rewrite: Rewrite, version: nat)
    requires Lawful(st) && Simulates(st, w) && Drops(st, rewrite)
    requires id in w.sys.rows && w.sys.rows[id].version < version
    ensures var w' := Run(st, w, [Read(0, id), Write(0, rewrite, version)]);
            && Simulates(st, w')
            && w'.sys == w.sys.(rows := w.sys.rows[id := P.Cell(None, version)], held := w.sys.held - {0})
  {
    var read: Event<Row, Stmt, Rewrite> := Read(0, id);
    ReadsRow(st, w, id);
    var w1 := Do(st, w, read);
    WritesDropped(st, w1, id, rewrite, version);
    RunTwo(st, w, read, Write(0, rewrite, version));
    assert w1.sys.held - {0} == w.sys.held - {0};
  }

  /** A swap is created, claimed successfully, and written by a full-row writer; its versions are 1, 2 and 3. */
  function ClaimedAndWritten<Row, Stmt, Rewrite>(id: SwapId, swap: Row, rewrite: Rewrite)
    : seq<Event<Row, Stmt, Rewrite>>
  {
    [Create(id, swap, 1)] + Lift(P.Claiming(0, id, Some("first"), 2, true, 3)) + [Read(0, id), Write(0, rewrite, 3)]
  }

  /** Another task then claims it, with either answer of the network. */
  function ClaimedAgain<Row, Stmt, Rewrite>(id: SwapId, swap: Row, rewrite: Rewrite, accepted: bool)
    : seq<Event<Row, Stmt, Rewrite>>
  {
    ClaimedAndWritten(id, swap, rewrite) + Lift(P.Claiming(1, id, Some("second"), 4, accepted, 5))
  }

  lemma LiftClaiming<Row(!new), Stmt(!new), Rewrite(!new)>(
      st: Store<Row, Stmt, Rewrite>, w: World<Row>, t: P.TaskId, id: SwapId, tx: TxId, version: nat, accepted: bool)
    requires Lawful(st) && Simulates(st, w) && t !in w.sys.tasks && (0, id) !in w.sys.claiming
    requires id in w.sys.rows && w.sys.rows[id].version < version
    ensures var w' := Run(st, w, Lift<Row, Stmt, Rewrite>(P.Claiming(t, id, Some(tx), version, accepted, version + 1)));
            Simulates(st, w') && w'.sys == P.Claimed(w.sys, t, id, Some(tx), version, accepted, version + 1)
  {
    LiftRun(st, w, P.Claiming(t, id, Some(tx), version, accepted, version + 1));
    P.ClaimingRun(w.sys, t, id, Some(tx), version, accepted, version + 1);
  }

  lemma CreatesRow<Row(!new), Stmt(!new), Rewrite(!new)>(st: Store<Row, Stmt, Rewrite>, id: SwapId, swap: Row)
    requires Lawful(st) && st.cell(swap) == P.Cell(None, 0)
    ensures var w := Run(st, Empty(), [Create(id, swap, 1)]);
            && Simulates(st, w) && w.sys == P.EMPTY.(rows := map[id := P.Cell(None, 1)])
  {
    var create: Event<Row, Stmt, Rewrite> := Create(id, swap, 1);
    StepSimulated(st, Empty(), create);
    assert [create][1..] == [];
  }

  lemma ClaimedAndDropped<Row(!new), Stmt(!new), Rewrite(!new)>(
      st: Store<Row, Stmt, Rewrite>, w: World<Row>, id: SwapId, rewrite: Rewrite)
    requires Lawful(st) && Simulates(st, w) && Drops(st, rewrite)
    requires w.sys == P.EMPTY.(rows := map[id := P.Cell(None, 1)])
    ensures var w1 := Run(st, w, Lift<Row, Stmt, Rewrite>(P.Claiming(0, id, Some("first"), 2, true, 3)));
            var w2 := Run(st, w1, [Read(0, id), Write(0, rewrite, 3)]);
            && Simulates(st, w2) && w2.sys.log == [P.Broadcast(id, "first")]
            && w2.sys.rows == map[id := P.Cell(None, 3)] && w2.sys.claiming == {} && w2.sys.tasks.Keys == {0}
  {
    LiftClaiming(st, w, 0, id, "first", 2, true);
    var w1 := Run(st, w, Lift<Row, Stmt, Rewrite>(P.Claiming(0, id, Some("first"), 2, true, 3)));
    DroppingWrite(st, w1, id, rewrite, 3);
    assert w1.sys.rows[id := P.Cell(None, 3)] == map[id := P.Cell(None, 3)];
  }

  /** A dropping writer leaves an accepted claim without a stored id. */
  lemma DroppedClaimIsForgotten<Row(!new), Stmt(!new), Rewrite(!new)>(
      st: Store<Row, Stmt, Rewrite>, id: SwapId, swap: Row, rewrite: Rewrite)
    requires Lawful(st) && st.cell(swap) == P.Cell(None, 0) && Drops(st, rewrite)
    ensures var w := Run(st, Empty(), ClaimedAndWritten<Row, Stmt, Rewrite>(id, swap, rewrite));
            && Simulates(st, w) && w.sys.log == [P.Broadcast(id, "first")]
            && w.sys.rows == map[id := P.Cell(None, 3)] && w.sys.claiming == {} && w.sys.tasks.Keys == {0}
  {
    CreatesRow(st, id, swap);
    ClaimedAndDropped(st, Run(st, Empty(), [Create(id, swap, 1)]), id, rewrite);
    var create: seq<Event<Row, Stmt, Rewrite>> := [Create(id, swap, 1)];
    var claim := Lift<Row, Stmt, Rewrite>(P.Claiming(0, id, Some("first"), 2, true, 3));
    RunAppend(st, Empty(), create, claim);
    RunAppend(st, Empty(), create + claim, [Read(0, id), Write(0, rewrite, 3)]);
  }

  /**
  Without soundness finality is false: a second claim of the swap is broadcast. If the network accepts it
  too, there are two accepted claims; if not, its rollback leaves the row without the id of the accepted one.
  */
  lemma DroppedClaimIsClaimedAgain<Row(!new), Stmt(!new), Rewrite(!new)>(
      st: Store<Row, Stmt, Rewrite>, id: SwapId, swap: Row, rewrite: Rewrite, accepted: bool)
    requires Lawful(st) && st.cell(swap) == P.Cell(None, 0) && Drops(st, rewrite)
    ensures var events := ClaimedAgain<Row, Stmt, Rewrite>(id, swap, rewrite, accepted);
            var w := Run(st, Empty(), events);
            && w.sys.log == [P.Broadcast(id, "first")] + (if accepted then [P.Broadcast(id, "second")] else [])
            && Columns(st, w.table) == map[id := if accepted then P.Cell(Some("second"), 4) else P.Cell(None, 5)]
            && !AllSound(st, Empty(), events)
  {
    DroppedClaimIsForgotten(st, id, swap, rewrite);
    var written := ClaimedAndWritten<Row, Stmt, Rewrite>(id, swap, rewrite);
    var w := Run(st, Empty(), written);
    LiftClaiming(st, w, 1, id, "second", 4, accepted);
    RunAppend(st, Empty(), written, Lift<Row, Stmt, Rewrite>(P.Claiming(1, id, Some("second"), 4, accepted, 5)));
    ForgottenClaimIsUnsound(st, written, id);
  }

  lemma ForgottenClaimIsUnsound<Row(!new), Stmt(!new), Rewrite(!new)>(
      st: Store<Row, Stmt, Rewrite>, events: seq<Event<Row, Stmt, Rewrite>>, id: SwapId)
    requires Lawful(st)
    requires var s := Run(st, Empty(), events).sys; |s.log| > 0 && !P.Owns(s.rows, s.log[0].id, s.log[0].tx)
    ensures !AllSound(st, Empty(), events)
  {
    if AllSound(st, Empty(), events) {
      RunKeepsProtocol(st, Empty(), events);
    }
  }
}
