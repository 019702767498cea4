/**
No lost updates. Concurrent tasks run single-row statements and read-modify-write cycles of the full
row (sync, recovery, SDK calls). A cycle holds the row it read across awaits and commits only if the
version is still the one it read. Every interleaving has the same effect on the table as a serial run
in which each committed cycle is one atomic step on the row stored at that moment.
*/
module Serializability {
  import opened Wrappers
  import opened SwapTypes
  import opened ChainStore

  type WriterId = nat

  /** What a writer computes from the row it read. A writer may use no more of that row than its version. */
  type Rewrite = (WriterId, ChainSwap) -> ChainSwap

  datatype Held = Held(id: SwapId, seen: ChainSwap)

  datatype World = World(rows: Table, held: map<WriterId, Held>)

  datatype Event =
    | Stmt(id: SwapId, stmt: Statement, version: nat)
    | New(id: SwapId, swap: ChainSwap, version: nat)
    | Fetch(writer: WriterId, id: SwapId)
    | Commit(writer: WriterId, version: nat)

  /** The serial operations: statements, insertions and atomic read-modify-writes. */
  datatype AtomicOp =
    | AtomicStmt(id: SwapId, stmt: Statement, version: nat)
    | AtomicNew(id: SwapId, swap: ChainSwap, version: nat)
    | AtomicRewrite(writer: WriterId, id: SwapId, version: nat)

  /** The proposal keeps the version that was read. */
  function Proposal(rewrite: Rewrite, w: WriterId, seen: ChainSwap): ChainSwap {
    rewrite(w, seen).(version := seen.version)
  }

  /**
  The trigger makes the version of an updated row strictly larger. A newly created swap, of version 0, meets
  no row of its id that was never updated; a row older than the version column has version 0 until its first update.
  */
  predicate Enabled(s: World, e: Event) {
    match e
    case Stmt(id, _, version) => id in s.rows ==> version > s.rows[id].version
    case New(id, swap, version) =>
      && swap.version == 0 && version > Target(s.rows, id, swap).version
      && (id in s.rows ==> s.rows[id].version > 0)
    case Fetch(_, id) => id in s.rows
    case Commit(w, version) => w in s.held && s.held[w].id in s.rows && version > s.rows[s.held[w].id].version
  }

  /** An event that is not enabled does not happen. */
  function Do(rewrite: Rewrite, s: World, e: Event): World {
    if !Enabled(s, e) then s else
    match e
    case Stmt(id, stmt, version) => s.(rows := Execute(s.rows, id, stmt, version))
    case New(id, swap, version) => s.(rows := Upsert(s.rows, id, swap, version))
    case Fetch(w, id) => s.(held := s.held[w := Held(id, s.rows[id])])
    case Commit(w, version) =>
      var h := s.held[w];
      World(Upsert(s.rows, h.id, Proposal(rewrite, w, h.seen), version), s.held - {w})
  }

  function Run(rewrite: Rewrite, s: World, events: seq<Event>): World
    decreases |events|
  {
    if events == [] then s else Run(rewrite, Do(rewrite, s, events[0]), events[1..])
  }

  function DoSerial(rewrite: Rewrite, rows: Table, op: AtomicOp): Table {
    match op
    case AtomicStmt(id, stmt, version) => Execute(rows, id, stmt, version)
    case AtomicNew(id, swap, version) => if id in rows then rows else Upsert(rows, id, swap, version)
    case AtomicRewrite(w, id, version) =>
      if id in rows then rows[id := Overwrite(rows[id], rewrite(w, rows[id]), version)] else rows
  }

  function RunSerial(rewrite: Rewrite, rows: Table, ops: seq<AtomicOp>): Table
    decreases |ops|
  {
    if ops == [] then rows else RunSerial(rewrite, DoSerial(rewrite, rows, ops[0]), ops[1..])
  }

  /** A commit goes through exactly when the row still has the version that was read. */
  predicate Commits(s: World, w: WriterId) {
    w in s.held && s.held[w].id in s.rows && s.rows[s.held[w].id].version == s.held[w].seen.version
  }

  /** The serial counterpart of one event: reads and refused commits have none. */
  function Effect(s: World, e: Event): seq<AtomicOp> {
    if !Enabled(s, e) then [] else
    match e
    case Stmt(id, stmt, version) => [AtomicStmt(id, stmt, version)]
    case New(id, swap, version) => [AtomicNew(id, swap, version)]
    case Fetch(_, _) => []
    case Commit(w, version) => if Commits(s, w) then [AtomicRewrite(w, s.held[w].id, version)] else []
  }

  function Linearize(rewrite: Rewrite, s: World, events: seq<Event>): seq<AtomicOp>
    decreases |events|
  {
    if events == [] then [] else Effect(s, events[0]) + Linearize(rewrite, Do(rewrite, s, events[0]), events[1..])
  }

  /** A held row is older than the stored one or is that very row. */
  ghost predicate Inv(s: World) {
    forall w <- s.held :: s.held[w].id in s.rows
                          && s.held[w].seen.version <= s.rows[s.held[w].id].version
                          && (s.held[w].seen.version == s.rows[s.held[w].id].version
                              ==> s.held[w].seen == s.rows[s.held[w].id])
  }

  lemma InvPreserved(rewrite: Rewrite, s: World, e: Event)
    requires Inv(s)
    ensures Inv(Do(rewrite, s, e))
  {
  }

  /** A committing writer saw exactly the row it replaces; otherwise the table is left alone. */
  lemma CommitSawStoredRow(rewrite: Rewrite, s: World, w: WriterId, version: nat)
    requires Inv(s) && Enabled(s, Commit(w, version))
    ensures Commits(s, w) ==> s.held[w].seen == s.rows[s.held[w].id]
    ensures !Commits(s, w) <==> Do(rewrite, s, Commit(w, version)).rows == s.rows
  {
    if Commits(s, w) {
      assert Do(rewrite, s, Commit(w, version)).rows[s.held[w].id].version == version;
    }
  }

  /** One event has the effect of its serial counterpart. */
  lemma EffectSimulates(rewrite: Rewrite, s: World, e: Event)
    requires Inv(s)
    ensures RunSerial(rewrite, s.rows, Effect(s, e)) == Do(rewrite, s, e).rows
  {
    var ops := Effect(s, e);
    if ops != [] {
      assert RunSerial(rewrite, s.rows, ops) == DoSerial(rewrite, s.rows, ops[0]) by {
        assert ops[1..] == [];
      }
      if e.Commit? {
        CommitSawStoredRow(rewrite, s, e.writer, e.version);
      }
    }
  }

  lemma {:induction false} SerialAppend(rewrite: Rewrite, rows: Table, a: seq<AtomicOp>, b: seq<AtomicOp>)
    ensures RunSerial(rewrite, rows, a + b) == RunSerial(rewrite, RunSerial(rewrite, rows, a), b)
    decreases |a|
  {
    if a == [] {
      assert a + b == b;
    } else {
      assert (a + b)[1..] == a[1..] + b;
      SerialAppend(rewrite, DoSerial(rewrite, rows, a[0]), a[1..], b);
    }
  }

  /** Any interleaved run equals the serial run of its committed operations. */
  lemma {:induction false} InterleavingIsSerial(rewrite: Rewrite, s: World, events: seq<Event>)
    requires Inv(s)
    ensures Inv(Run(rewrite, s, events))
    ensures Run(rewrite, s, events).rows == RunSerial(rewrite, s.rows, Linearize(rewrite, s, events))
    decreases |events|
  {
    if events != [] {
      var s' := Do(rewrite, s, events[0]);
      InvPreserved(rewrite, s, events[0]);
      EffectSimulates(rewrite, s, events[0]);
      InterleavingIsSerial(rewrite, s', events[1..]);
      SerialAppend(rewrite, s.rows, Effect(s, events[0]), Linearize(rewrite, s', events[1..]));
    }
  }

  /** Other events leave a writer's held row alone. */
  lemma {:induction false} HeldStays(rewrite: Rewrite, s: World, w: WriterId, events: seq<Event>)
    requires w in s.held
    requires forall e <- events :: !(e.Fetch? && e.writer == w) && !(e.Commit? && e.writer == w)
    ensures w in Run(rewrite, s, events).held && Run(rewrite, s, events).held[w] == s.held[w]
    decreases |events|
  {
    if events != [] {
      assert events[0] in events;
      HeldStays(rewrite, Do(rewrite, s, events[0]), w, events[1..]);
    }
  }

  /** A cycle is refused exactly when some update hit its row between the read and the write. */
  lemma CommitsIffUntouched(rewrite: Rewrite, s: World, w: WriterId, id: SwapId, events: seq<Event>)
    requires Inv(s) && id in s.rows
    requires forall e <- events :: !(e.Fetch? && e.writer == w) && !(e.Commit? && e.writer == w)
    ensures var s' := Run(rewrite, Do(rewrite, s, Fetch(w, id)), events);
            id in s'.rows && (Commits(s', w) <==> s'.rows[id] == s.rows[id])
  {
    var s1 := Do(rewrite, s, Fetch(w, id));
    InvPreserved(rewrite, s, Fetch(w, id));
    HeldStays(rewrite, s1, w, events);
    InterleavingIsSerial(rewrite, s1, events);
  }

  /** An undisturbed cycle writes what the writer makes of the stored row, and a statement what it sets. */
  lemma UndisturbedCycleWrites(rewrite: Rewrite, s: World, w: WriterId, id: SwapId, version: nat)
    requires id in s.rows && version > s.rows[id].version
    ensures var s' := Do(rewrite, Do(rewrite, s, Fetch(w, id)), Commit(w, version));
            var row := s.rows[id];
            && s'.rows == s.rows[id := rewrite(w, row).(terms := row.terms, autoAccepted := row.autoAccepted,
                                                version := version)]
            && w !in s'.held
  {
  }

  lemma StatementTakesEffect(rewrite: Rewrite, s: World, id: SwapId, address: Option<Address>, tx: TxId, version: nat)
    requires id in s.rows && version > s.rows[id].version
    ensures Do(rewrite, s, Stmt(id, SetClaim(address, tx), version)).rows ==
            if s.rows[id].claimTx.Some? then s.rows
            else s.rows[id := s.rows[id].(claimAddress := address, claimTx := Some(tx), version := version)]
  {
  }

  /** A new swap takes effect exactly if there is none with its id. */
  lemma NewSwapTakesEffect(rewrite: Rewrite, s: World, id: SwapId, swap: ChainSwap, version: nat)
    requires swap.version == 0
    ensures id !in s.rows && version > 0 ==>
              Do(rewrite, s, New(id, swap, version)).rows ==
              s.rows[id := swap.(autoAccepted := false, version := version)]
    ensures id in s.rows || version == 0 ==> Do(rewrite, s, New(id, swap, version)) == s
  {
  }
}
