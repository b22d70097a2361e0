/** Importing the records of one space into a newly paired one, in batches, so that it can be repeated safely. */
module PairingMerge {
  import opened Wrappers
  import opened Ordering
  import opened Operations
  import opened OperationGraph
  import opened GraphInvariants
  import opened EntityHistories
  import opened Outbox
  import opened MediaTransfers
  import opened ClientDatabase
  import opened CommitAcceptance
  import opened Authoring
  import Store = ClientStore

  const IMPORT_BATCH: nat := 100

  // ----- the import query -----

  /** A current record of the space that is not a tombstone. */
  predicate Live(d: Derived, e: Entry, space: SpaceId) {
    && e.op.id in d.heads && e.op.id in d.projections
    && d.projections[e.op.id].space == space && d.projections[e.op.id].schema.Record? && !d.projections[e.op.id].tombstone
  }

  function LiveRows(log: seq<Entry>, d: Derived, space: SpaceId): seq<Entry> {
    if log == [] then []
    else
      var last := log[|log| - 1];
      LiveRows(log[..|log| - 1], d, space) + if Live(d, last, space) then [last] else []
  }

  function RowsAfter(rows: seq<Entry>, after: nat): seq<Entry> {
    if rows == [] then []
    else (if rows[0].sequence > after then [rows[0]] else []) + RowsAfter(rows[1..], after)
  }

  predicate IsRecordOf(e: Entry, space: SpaceId) { e.op.space == space && e.op.schema.Record? && e.op.body.PutRecord? }

  function ImportBatch(g: Graph, space: SpaceId, after: nat, limit: nat): Result<seq<Entry>, StoreError> {
    var rows := Take(RowsAfter(LiveRows(g.log, g.derived, space), after), limit);
    if !(1 <= limit <= 200) then Err(InvalidEntityLimit)
    else if exists i :: 0 <= i < |rows| && !IsRecordOf(rows[i], space) then Err(Corrupt)
    else Ok(rows)
  }

  // ----- importing, one row after the other -----

  datatype ImportOutcome = ImportOutcome(db: Database, drawn: nat, error: Option<RuntimeError>)

  predicate AlreadyImported(db: Database, heads: seq<OperationId>, body: Body) {
    |heads| == 1 && heads[0] in Ops(db.graph.log) && Ops(db.graph.log)[heads[0]].body == body
  }

  function ImportOne(db: Database, a: Author, n: nat, row: Entry): ImportOutcome {
    if !row.op.body.PutRecord? then ImportOutcome(db, n, Some(OfStore(Corrupt)))
    else
      match Entity(db.graph, (a.context.space, row.op.entity))
      case Err(e) => ImportOutcome(db, n, Some(OfStore(e)))
      case Ok(Some(existing)) =>
        if AlreadyImported(db, existing.heads, row.op.body) then ImportOutcome(db, n, None)
        else ImportOutcome(db, n, Some(PairingImportCollision(row.op.entity)))
      case Ok(None) =>
        match ImportRecord(a, n, row.op.entity, row.op.body.record)
        case Err(e) => ImportOutcome(db, n, Some(OfClient(e)))
        case Ok(op) =>
          match Commit(db, op, op.occurredAt, Local)
          case Err(e) => ImportOutcome(db, n, Some(OfStore(e)))
          case Ok(next) => ImportOutcome(next, n + 1, None)
  }

  type Importer = (Database, nat, Entry) -> ImportOutcome

  function ImporterOf(a: Author): Importer { (db: Database, n: nat, row: Entry) => ImportOne(db, a, n, row) }

  function Fold(step: Importer, db: Database, n: nat, rows: seq<Entry>): ImportOutcome
    decreases |rows|
  {
    if rows == [] then ImportOutcome(db, n, None)
    else
      var first := step(db, n, rows[0]);
      if first.error.Some? then first else Fold(step, first.db, first.drawn, rows[1..])
  }

  /** The unbatched specification: every row in turn, until the first error. */
  function ImportAll(db: Database, a: Author, n: nat, rows: seq<Entry>): ImportOutcome { Fold(ImporterOf(a), db, n, rows) }

  /** A property of state and remaining rows that every step keeps without error holds at the end. */
  lemma {:induction false} FoldKeeps(step: Importer, holds: (Database, seq<Entry>) -> bool, db: Database, n: nat, rows: seq<Entry>)
    requires forall d, m: nat, rest: seq<Entry> | holds(d, rest) && rest != [] ::
               step(d, m, rest[0]).error.None? && holds(step(d, m, rest[0]).db, rest[1..])
    requires holds(db, rows)
    ensures Fold(step, db, n, rows).error.None? && holds(Fold(step, db, n, rows).db, [])
    decreases |rows|
  {
    if rows != [] {
      var first := step(db, n, rows[0]);
      FoldKeeps(step, holds, first.db, first.drawn, rows[1..]);
    }
  }

  /** Every state the fold passes through keeps what each step keeps, with or without an error. */
  lemma {:induction false} FoldReaches(step: Importer, reached: Database -> bool, db: Database, n: nat, rows: seq<Entry>)
    requires forall d, m: nat, row | reached(d) :: reached(step(d, m, row).db)
    requires reached(db)
    ensures reached(Fold(step, db, n, rows).db)
    decreases |rows|
  {
    if rows != [] {
      var first := step(db, n, rows[0]);
      assert reached(first.db);
      if first.error.None? { FoldReaches(step, reached, first.db, first.drawn, rows[1..]); }
    }
  }

  /** A collision in the destination; or a history there that cannot be read, unless all are known to be readable. */
  ghost predicate Blocks(e: RuntimeError, readable: bool) { e.PairingImportCollision? || (!readable && e == OfStore(Corrupt)) }

  ghost predicate BlocksOr(first: ImportOutcome, readable: bool, goesOn: bool) {
    if first.error.Some? then Blocks(first.error.value, readable) else goesOn
  }

  /** A bad state and remaining rows end blocked if every step either is blocked or stays bad. */
  lemma {:induction false} FoldBlocks(step: Importer, bad: (Database, seq<Entry>) -> bool, readable: bool, db: Database, n: nat,
                                      rows: seq<Entry>)
    requires forall d, rest: seq<Entry> | bad(d, rest) :: rest != []
    requires forall d, m: nat, rest: seq<Entry> | bad(d, rest) ::
               BlocksOr(step(d, m, rest[0]), readable, bad(step(d, m, rest[0]).db, rest[1..]))
    requires bad(db, rows)
    ensures Fold(step, db, n, rows).error.Some? && Blocks(Fold(step, db, n, rows).error.value, readable)
    decreases |rows|
  {
    var first := step(db, n, rows[0]);
    if first.error.None? { FoldBlocks(step, bad, readable, first.db, first.drawn, rows[1..]); }
  }

  lemma {:induction false} FoldSplits(step: Importer, db: Database, n: nat, rows: seq<Entry>, k: nat)
    requires k <= |rows|
    ensures
      var first := Fold(step, db, n, rows[..k]);
      Fold(step, db, n, rows) == if first.error.Some? then first else Fold(step, first.db, first.drawn, rows[k..])
    decreases k
  {
    if k == 0 {
      assert rows[0..] == rows;
    } else {
      var one := step(db, n, rows[0]);
      assert rows[..k][0] == rows[0] && rows[..k][1..] == rows[1..][..k - 1] && rows[1..][k - 1..] == rows[k..];
      if one.error.None? { FoldSplits(step, one.db, one.drawn, rows[1..], k - 1); }
    }
  }

  // ----- what one import leaves alone -----

  /** Everything outside the destination space is as it was. */
  ghost predicate OnlyTouches(g: Graph, next: Graph, space: SpaceId) {
    && Remaining(Ops(next.log), space) == Remaining(Ops(g.log), space)
    && (forall other | other != space :: LiveRows(next.log, next.derived, other) == LiveRows(g.log, g.derived, other))
    && (forall key: Key | key.0 != space :: HeadsOf(next.derived.heads, key) == HeadsOf(g.derived.heads, key))
  }

  lemma {:induction false} LiveRowsFrame(log: seq<Entry>, d: Derived, next: Derived, space: SpaceId)
    requires forall e | e in log :: Live(d, e, space) <==> Live(next, e, space)
    ensures LiveRows(log, d, space) == LiveRows(log, next, space)
    decreases |log|
  {
    if log != [] {
      assert log == log[..|log| - 1] + [log[|log| - 1]];
      LiveRowsFrame(log[..|log| - 1], d, next, space);
    }
  }

  lemma RootTouchesOnlyItself(d: Derived, op: Operation)
    requires op.parents == [] && Derive(d, op).Ok?
    ensures forall id | id != op.id :: id in Derive(d, op).value.heads <==> id in d.heads
    ensures forall id | id != op.id :: id in Derive(d, op).value.projections <==> id in d.projections
    ensures forall id | id in d.projections && id != op.id :: Derive(d, op).value.projections[id] == d.projections[id]
    ensures op.id in Derive(d, op).value.projections && op.id !in d.projections ==>
              Derive(d, op).value.projections[op.id].space == op.space
  {
  }

  lemma AdmittedRootKeepsRows(g: Graph, op: Operation, at: int, local: bool, space: SpaceId)
    requires DistinctFrom(g.log, op.id) && op.id !in g.derived.projections && op.id !in g.derived.heads
    requires op.parents == [] && Admit(g, op, at, local).Ok? && op.space != space
    ensures
      var next := Admit(g, op, at, local).value;
      LiveRows(next.log, next.derived, space) == LiveRows(g.log, g.derived, space)
  {
    var next := Admit(g, op, at, local).value;
    RootTouchesOnlyItself(g.derived, op);
    LiveRowsFrame(g.log, g.derived, next.derived, space);
    assert next.log[..|next.log| - 1] == g.log;
  }

  ghost predicate DistinctFrom(log: seq<Entry>, id: OperationId) { forall e | e in log :: e.op.id != id }

  lemma FreshIsDistinct(g: Graph, id: OperationId)
    requires Inv(g) && id !in Ops(g.log)
    ensures DistinctFrom(g.log, id) && id !in g.derived.projections && id !in g.derived.heads
  {
    forall e | e in g.log ensures e.op.id != id { EntryIsStored(g.log, e); }
  }

  lemma AdmittedRootHeads(g: Graph, op: Operation, at: int, local: bool)
    requires HeadRowsMatch(Ops(g.log), g.derived.heads) && op.id !in Ops(g.log)
    requires op.parents == [] && Admit(g, op, at, local).Ok?
    ensures forall key :: HeadsOf(Admit(g, op, at, local).value.derived.heads, key) ==
                          HeadsOf(g.derived.heads, key) + if key == KeyOf(op) then {op.id} else {}
  {
    assert ParentSet(op) == {};
    forall key
      ensures HeadsOf(Admit(g, op, at, local).value.derived.heads, key) ==
              HeadsOf(g.derived.heads, key) + if key == KeyOf(op) then {op.id} else {}
    {
      HeadsAfterAdmit(g, op, at, local, key);
    }
  }

  lemma AdmittedRootRows(g: Graph, op: Operation, at: int, local: bool)
    requires Inv(g) && op.parents == [] && op.id !in Ops(g.log) && Admit(g, op, at, local).Ok?
    ensures
      var next := Admit(g, op, at, local).value;
      forall other | other != op.space :: LiveRows(next.log, next.derived, other) == LiveRows(g.log, g.derived, other)
  {
    FreshIsDistinct(g, op.id);
    var next := Admit(g, op, at, local).value;
    forall other | other != op.space ensures LiveRows(next.log, next.derived, other) == LiveRows(g.log, g.derived, other) {
      AdmittedRootKeepsRows(g, op, at, local, other);
    }
  }

  lemma AdmittedRootOps(g: Graph, op: Operation, at: int, local: bool)
    requires op.id !in Ops(g.log) && Admit(g, op, at, local).Ok?
    ensures Ops(Admit(g, op, at, local).value.log) == Ops(g.log)[op.id := op]
    ensures Remaining(Ops(Admit(g, op, at, local).value.log), op.space) == Remaining(Ops(g.log), op.space)
  {
    AdmitAppends(g, op, at, local);
    OpsAppend(g.log, Entry(g.lastSequence + 1, op, at, local));
    RemainingAdd(Ops(g.log), op, op.space);
  }

  lemma AdmittedRootTouches(g: Graph, op: Operation, at: int, local: bool)
    requires Inv(g) && op.parents == [] && op.id !in Ops(g.log) && Admit(g, op, at, local).Ok?
    ensures OnlyTouches(g, Admit(g, op, at, local).value, op.space)
  {
    AdmittedRootOps(g, op, at, local);
    AdmittedRootRows(g, op, at, local);
    AdmittedRootHeads(g, op, at, local);
  }

  lemma TouchesNothing(g: Graph, space: SpaceId)
    ensures OnlyTouches(g, g, space)
  {
  }

  lemma ImportedIsRoot(a: Author, n: nat, row: Entry)
    requires row.op.body.PutRecord? && ImportRecord(a, n, row.op.entity, row.op.body.record).Ok?
    ensures
      var op := ImportRecord(a, n, row.op.entity, row.op.body.record).value;
      && Verified(op) && op.parents == [] && op.space == a.context.space && op.entity == row.op.entity
      && op.body == row.op.body && op.schema == Record && op.authorization == a.context.authorization
  {
  }

  /** An import either changes nothing or commits one root of the destination space for an absent entity. */
  lemma ImportOneMoves(db: Database, a: Author, n: nat, row: Entry) returns (made: Option<Operation>)
    ensures made.None? ==> ImportOne(db, a, n, row).db == db
    ensures made.Some? ==>
      && row.op.body.PutRecord? && ImportRecord(a, n, row.op.entity, row.op.body.record) == Ok(made.value)
      && Entity(db.graph, (a.context.space, row.op.entity)) == Ok(None)
      && Commit(db, made.value, made.value.occurredAt, Local) == Ok(ImportOne(db, a, n, row).db)
      && ImportOne(db, a, n, row).error.None?
  {
    made := None;
    if row.op.body.PutRecord? && Entity(db.graph, (a.context.space, row.op.entity)) == Ok(None) {
      var op := ImportRecord(a, n, row.op.entity, row.op.body.record);
      if op.Ok? && Commit(db, op.value, op.value.occurredAt, Local).Ok? { made := Some(op.value); }
    }
  }

  lemma AbsentIsFresh(db: Database, op: Operation)
    requires Entity(db.graph, KeyOf(op)) == Ok(None) && Commit(db, op, op.occurredAt, Local).Ok?
    ensures op.id !in Ops(db.graph.log)
  {
    HistoryIsEmpty(db.graph.log, KeyOf(op));
  }

  /** One import keeps the database well formed and touches only the destination space. */
  lemma ImportOneIsSafe(db: Database, a: Author, n: nat, row: Entry)
    requires DatabaseInv(db)
    ensures DatabaseInv(ImportOne(db, a, n, row).db)
    ensures OnlyTouches(db.graph, ImportOne(db, a, n, row).db.graph, a.context.space)
  {
    var made := ImportOneMoves(db, a, n, row);
    if made.Some? {
      ImportedIsRoot(a, n, row);
      ImportCommitIsSafe(db, made.value);
    } else {
      TouchesNothing(db.graph, a.context.space);
    }
  }

  lemma ImportCommitIsSafe(db: Database, op: Operation)
    requires DatabaseInv(db) && op.parents == [] && Entity(db.graph, KeyOf(op)) == Ok(None)
    requires Commit(db, op, op.occurredAt, Local).Ok?
    ensures DatabaseInv(Commit(db, op, op.occurredAt, Local).value) && op.id !in Ops(db.graph.log)
    ensures OnlyTouches(db.graph, Commit(db, op, op.occurredAt, Local).value.graph, op.space)
  {
    AbsentIsFresh(db, op);
    CommitAdmits(db, op, op.occurredAt, Local);
    AdmittedRootTouches(db.graph, op, op.occurredAt, true);
    CommitIsWellFormed(db, op, op.occurredAt);
  }

  lemma CommitIsWellFormed(db: Database, op: Operation, at: int)
    requires DatabaseInv(db) && Commit(db, op, at, Local).Ok?
    ensures DatabaseInv(Commit(db, op, at, Local).value)
  {
    NextKeepsInv(db, CommitStep(op, at, Local));
  }

  /** Any number of imports, with or without an error at the end, touches only the destination space. */
  lemma ImportAllIsSafe(db: Database, a: Author, n: nat, rows: seq<Entry>)
    requires DatabaseInv(db)
    ensures DatabaseInv(ImportAll(db, a, n, rows).db)
    ensures OnlyTouches(db.graph, ImportAll(db, a, n, rows).db.graph, a.context.space)
  {
    var reached := SafelyFrom(db, a.context.space);
    forall d, m: nat, row | reached(d) ensures reached(ImporterOf(a)(d, m, row).db) {
      ImportOneIsSafe(d, a, m, row);
      TouchesCompose(db.graph, d.graph, ImportOne(d, a, m, row).db.graph, a.context.space);
    }
    TouchesNothing(db.graph, a.context.space);
    FoldReaches(ImporterOf(a), reached, db, n, rows);
  }

  ghost function SafelyFrom(db: Database, space: SpaceId): Database -> bool {
    d => DatabaseInv(d) && OnlyTouches(db.graph, d.graph, space)
  }

  lemma TouchesCompose(g: Graph, h: Graph, next: Graph, space: SpaceId)
    requires OnlyTouches(g, h, space) && OnlyTouches(h, next, space)
    ensures OnlyTouches(g, next, space)
  {
  }

  // ----- the batched loop refines it -----

  lemma {:induction false} LiveRowsAreLive(log: seq<Entry>, d: Derived, space: SpaceId)
    ensures forall i | 0 <= i < |LiveRows(log, d, space)| ::
              LiveRows(log, d, space)[i] in log && Live(d, LiveRows(log, d, space)[i], space)
    decreases |log|
  {
    if log != [] {
      assert log == log[..|log| - 1] + [log[|log| - 1]];
      LiveRowsAreLive(log[..|log| - 1], d, space);
    }
  }

  lemma LiveIsRecord(g: Graph, e: Entry, space: SpaceId)
    requires Inv(g) && e in g.log && Live(g.derived, e, space)
    ensures IsRecordOf(e, space)
  {
    EntryIsStored(g.log, e);
    LegalIds(g.log, e.op.id);
  }

  lemma {:induction false} LiveRowsAscend(log: seq<Entry>, d: Derived, space: SpaceId)
    requires Ascending(log)
    ensures Ascending(LiveRows(log, d, space))
    ensures forall e | e in LiveRows(log, d, space) :: e in log
    decreases |log|
  {
    if log != [] {
      var init, last := log[..|log| - 1], log[|log| - 1];
      LiveRowsAscend(init, d, space);
      var rows := LiveRows(init, d, space);
      forall i | 0 <= i < |rows| ensures rows[i].sequence < last.sequence {
        assert rows[i] in rows && rows[i] in init;
        var k :| 0 <= k < |init| && init[k] == rows[i];
        assert log[k] == init[k];
      }
      assert log == init + [last];
    }
  }

  ghost predicate CursorAt(rows: seq<Entry>, after: nat, done: nat) {
    && done <= |rows|
    && (forall i | 0 <= i < done :: rows[i].sequence <= after)
    && (forall i | done <= i < |rows| :: rows[i].sequence > after)
  }

  /** The cursor selects exactly the rows not yet visited. */
  lemma {:induction false} RowsAfterIsRest(rows: seq<Entry>, after: nat, done: nat)
    requires CursorAt(rows, after, done)
    ensures RowsAfter(rows, after) == rows[done..]
    decreases |rows|
  {
    if rows != [] {
      var rest := if done == 0 then 0 else done - 1;
      RowsAfterIsRest(rows[1..], after, rest);
      if done == 0 {
        assert rows[1..][0..] == rows[1..] && rows == [rows[0]] + rows[1..];
      } else {
        assert rows[1..][rest..] == rows[done..];
      }
    }
  }

  lemma RowsFacts(g: Graph, space: SpaceId)
    requires Inv(g)
    ensures
      var rows := LiveRows(g.log, g.derived, space);
      && Ascending(rows)
      && (forall i | 0 <= i < |rows| :: rows[i].sequence > 0 && IsRecordOf(rows[i], space) && rows[i] in g.log)
  {
    var rows := LiveRows(g.log, g.derived, space);
    LiveRowsAreLive(g.log, g.derived, space);
    LiveRowsAscend(g.log, g.derived, space);
    forall i | 0 <= i < |rows| ensures IsRecordOf(rows[i], space) { LiveIsRecord(g, rows[i], space); }
  }

  lemma NextBatch(g: Graph, space: SpaceId, rows: seq<Entry>, after: nat, done: nat)
    requires Inv(g) && rows == LiveRows(g.log, g.derived, space) && CursorAt(rows, after, done)
    ensures ImportBatch(g, space, after, IMPORT_BATCH) == Ok(Take(rows[done..], IMPORT_BATCH))
  {
    RowsFacts(g, space);
    RowsAfterIsRest(rows, after, done);
  }

  /** One record of the loop body. */
  method ImportRow(store: Store.ClientStore, a: Author, n: nat, row: Entry)
    returns (drawn: nat, error: Option<RuntimeError>)
    requires store.Valid()
    modifies store
    ensures store.Valid()
    ensures ImportOutcome(store.Tables(), drawn, error) == ImportOne(old(store.Tables()), a, n, row)
  {
    if !row.op.body.PutRecord? { return n, Some(OfStore(Corrupt)); }
    var found := Entity(store.graph, (a.context.space, row.op.entity));
    if found.Err? { return n, Some(OfStore(found.error)); }
    if found.value.Some? {
      var heads := found.value.value.heads;
      if |heads| == 1 && heads[0] in Ops(store.graph.log) && Ops(store.graph.log)[heads[0]].body == row.op.body {
        return n, None;
      }
      return n, Some(PairingImportCollision(row.op.entity));
    }
    var op := ImportRecord(a, n, row.op.entity, row.op.body.record);
    if op.Err? { return n, Some(OfClient(op.error)); }
    var committed := store.Commit(op.value, op.value.occurredAt, Local);
    if committed.Err? { return n, Some(OfStore(committed.error)); }
    return n + 1, None;
  }

  lemma ImportAllCons(db: Database, a: Author, n: nat, rows: seq<Entry>, i: nat)
    requires i < |rows|
    ensures
      var first := ImportOne(db, a, n, rows[i]);
      ImportAll(db, a, n, rows[i..]) ==
      if first.error.Some? then first else ImportAll(first.db, a, first.drawn, rows[i + 1..])
  {
    assert rows[i..][0] == rows[i] && rows[i..][1..] == rows[i + 1..];
  }

  method ImportRows(store: Store.ClientStore, a: Author, n: nat, rows: seq<Entry>)
    returns (drawn: nat, error: Option<RuntimeError>)
    requires store.Valid()
    modifies store
    ensures store.Valid()
    ensures ImportOutcome(store.Tables(), drawn, error) == ImportAll(old(store.Tables()), a, n, rows)
  {
    drawn, error := n, None;
    var i := 0;
    assert rows[0..] == rows;
    while i < |rows|
      invariant store.Valid() && 0 <= i <= |rows| && error.None?
      invariant ImportAll(old(store.Tables()), a, n, rows) == ImportAll(store.Tables(), a, drawn, rows[i..])
    {
      ImportAllCons(store.Tables(), a, drawn, rows, i);
      drawn, error := ImportRow(store, a, drawn, rows[i]);
      if error.Some? { return; }
      i := i + 1;
    }
  }

  /** The rows still to import, seen from the current state. */
  ghost predicate Remains(db: Database, source: SpaceId, rows: seq<Entry>, after: nat, done: nat) {
    && rows == LiveRows(db.graph.log, db.graph.derived, source)
    && CursorAt(rows, after, done)
  }

  lemma RemainsAfterBatch(db: Database, next: Database, source: SpaceId, dest: SpaceId, rows: seq<Entry>, after: nat, done: nat,
                          batch: seq<Entry>)
    requires Inv(db.graph) && source != dest && Remains(db, source, rows, after, done)
    requires OnlyTouches(db.graph, next.graph, dest) && batch == Take(rows[done..], IMPORT_BATCH) && batch != []
    ensures Remains(next, source, rows, batch[|batch| - 1].sequence, done + |batch|)
  {
    RowsFacts(db.graph, source);
    assert batch[|batch| - 1] == rows[done + |batch| - 1];
  }

  /** Where the loop stands: `rest` of the work gives the same outcome as the whole did at the start. */
  ghost predicate LoopState(start: Database, db: Database, a: Author, source: SpaceId, rows: seq<Entry>, after: nat, done: nat,
                            drawn: nat)
  {
    && Remains(db, source, rows, after, done)
    && ImportAll(start, a, 0, rows) == ImportAll(db, a, drawn, rows[done..])
  }

  lemma LoopAdvances(start: Database, db: Database, a: Author, source: SpaceId, rows: seq<Entry>, after: nat, done: nat,
                     n: nat, batch: seq<Entry>, next: ImportOutcome)
    requires DatabaseInv(db) && source != a.context.space && LoopState(start, db, a, source, rows, after, done, n)
    requires batch == Take(rows[done..], IMPORT_BATCH) && next == ImportAll(db, a, n, batch)
    ensures batch == [] || next.error.Some? ==> next == ImportAll(start, a, 0, rows)
    ensures batch != [] && next.error.None? ==>
              done + |batch| <= |rows|
              && LoopState(start, next.db, a, source, rows, batch[|batch| - 1].sequence, done + |batch|, next.drawn)
  {
    BatchStep(db, a, n, rows, done, batch);
    if batch == [] {
      assert rows[done..] == [];
    } else if next.error.None? {
      RemainsAfterBatch(db, next.db, source, a.context.space, rows, after, done, batch);
    }
  }

  /** How a turn of the loop ends: finished with the whole outcome, or further along. */
  ghost predicate TurnEnds(start: Database, a: Author, source: SpaceId, rows: seq<Entry>, done: nat, end: ImportOutcome,
                           more: bool, cursor: nat, visited: nat)
  {
    if more then done < visited <= |rows| && LoopState(start, end.db, a, source, rows, cursor, visited, end.drawn)
    else visited == done && end == ImportAll(start, a, 0, rows)
  }

  lemma TurnAdvances(start: Database, db: Database, a: Author, source: SpaceId, rows: seq<Entry>, after: nat, done: nat,
                     n: nat, batch: seq<Entry>, end: ImportOutcome, more: bool, cursor: nat, visited: nat)
    requires DatabaseInv(db) && source != a.context.space && LoopState(start, db, a, source, rows, after, done, n)
    requires batch == Take(rows[done..], IMPORT_BATCH) && end == ImportAll(db, a, n, batch)
    requires more == (batch != [] && end.error.None?)
    requires visited == if more then done + |batch| else done
    requires more ==> cursor == batch[|batch| - 1].sequence
    ensures TurnEnds(start, a, source, rows, done, end, more, cursor, visited)
  {
    LoopAdvances(start, db, a, source, rows, after, done, n, batch, end);
  }

  lemma LoopBatch(db: Database, start: Database, a: Author, source: SpaceId, rows: seq<Entry>, after: nat, done: nat, drawn: nat)
    requires DatabaseInv(db) && LoopState(start, db, a, source, rows, after, done, drawn)
    ensures done <= |rows| && ImportBatch(db.graph, source, after, IMPORT_BATCH) == Ok(Take(rows[done..], IMPORT_BATCH))
  {
    NextBatch(db.graph, source, rows, after, done);
  }

  lemma LoopStarts(db: Database, a: Author, source: SpaceId)
    requires DatabaseInv(db)
    ensures LoopState(db, db, a, source, LiveRows(db.graph.log, db.graph.derived, source), 0, 0, 0)
  {
    RowsFacts(db.graph, source);
    var rows := LiveRows(db.graph.log, db.graph.derived, source);
    assert rows[0..] == rows;
  }

  /** The cursor loop: batches of 100 after the last sequence, until a batch comes back empty. Re-querying between
      batches sees exactly the rows of the original state. */
  method MergeRecords(store: Store.ClientStore, a: Author, source: SpaceId)
    returns (drawn: nat, error: Option<RuntimeError>)
    requires store.Valid() && source != a.context.space
    modifies store
    ensures store.Valid()
    ensures ImportOutcome(store.Tables(), drawn, error) ==
            ImportAll(old(store.Tables()), a, 0, LiveRows(old(store.graph.log), old(store.graph.derived), source))
  {
    ghost var start := store.Tables();
    ghost var rows := LiveRows(store.graph.log, store.graph.derived, source);
    ghost var done := 0;
    LoopStarts(start, a, source);
    var after, more := 0, true;
    drawn, error := 0, None;
    while more
      invariant store.Valid() && done <= |rows|
      invariant more ==> LoopState(start, store.Tables(), a, source, rows, after, done, drawn)
      invariant !more ==> ImportOutcome(store.Tables(), drawn, error) == ImportAll(start, a, 0, rows)
      decreases |rows| - done, more
    {
      more, after, drawn, error, done := MergeBatch(store, a, source, after, drawn, start, rows, done);
    }
  }

  /** One turn of the loop: fetch a batch, import it, move the cursor behind it. */
  method MergeBatch(store: Store.ClientStore, a: Author, source: SpaceId, after: nat, n: nat,
                    ghost start: Database, ghost rows: seq<Entry>, ghost done: nat)
    returns (more: bool, cursor: nat, drawn: nat, error: Option<RuntimeError>, ghost visited: nat)
    requires store.Valid() && source != a.context.space
    requires LoopState(start, store.Tables(), a, source, rows, after, done, n)
    modifies store
    ensures store.Valid()
    ensures TurnEnds(start, a, source, rows, done, ImportOutcome(store.Tables(), drawn, error), more, cursor, visited)
  {
    ghost var before := store.Tables();
    LoopBatch(before, start, a, source, rows, after, done, n);
    var batch := ImportBatch(store.graph, source, after, IMPORT_BATCH).value;
    drawn, error := ImportRows(store, a, n, batch);
    more := batch != [] && error.None?;
    cursor := if more then batch[|batch| - 1].sequence else after;
    visited := if more then done + |batch| else done;
    ghost var end := ImportOutcome(store.Tables(), drawn, error);
    TurnAdvances(start, before, a, source, rows, after, done, n, batch, end, more, cursor, visited);
  }

  lemma BatchStep(db: Database, a: Author, n: nat, rows: seq<Entry>, done: nat, batch: seq<Entry>)
    requires DatabaseInv(db) && done <= |rows| && batch == Take(rows[done..], IMPORT_BATCH)
    ensures done + |batch| <= |rows|
    ensures OnlyTouches(db.graph, ImportAll(db, a, n, batch).db.graph, a.context.space)
    ensures
      var first := ImportAll(db, a, n, batch);
      ImportAll(db, a, n, rows[done..]) ==
      if first.error.Some? then first else ImportAll(first.db, a, first.drawn, rows[done + |batch|..])
  {
    var rest := rows[done..];
    assert batch == rest[..|batch|] && rest[|batch|..] == rows[done + |batch|..];
    FoldSplits(ImporterOf(a), db, n, rest, |batch|);
    ImportAllIsSafe(db, a, n, batch);
  }

  // ----- when the merge succeeds, and what it leaves -----

  /** Key custody signs what it is asked to sign, and the clock is past the epoch. */
  ghost predicate Honest(a: Author) {
    && (forall d :: ProjectionMatches(a.sign(d), d, a.actor) && a.sign(d).sealed)
    && (forall n :: 0 <= a.clock(n))
  }

  /** Identifiers determine content, in the store and for every operation the author may sign. */
  ghost predicate Authentic(db: Database, a: Author, content: OperationId -> Operation) {
    && (forall id | id in Ops(db.graph.log) :: Ops(db.graph.log)[id] == content(id))
    && (forall d :: content(a.sign(d).id) == a.sign(d))
  }

  ghost predicate ContextReady(db: Database, a: Author) {
    var auth := a.context.authorization;
    && 0 < |auth| <= MAX_AUTHORIZATION_REFERENCES && StrictlySorted(auth, NatLess)
    && (forall id | id in auth :: id in Ops(db.graph.log))
  }

  /** The context that pairing builds from the admitted grant is ready. */
  lemma PairedContextIsReady(db: Database, a: Author, grant: OperationId)
    requires NewContext(a.context.space, [grant]) == Ok(a.context) && grant in Ops(db.graph.log)
    ensures ContextReady(db, a)
  {
    ContextIsCanonical(a.context.space, [grant]);
    SortDedupIsSorted([grant]);
    var auth := a.context.authorization;
    forall id | id in auth ensures id == grant { assert id in [grant]; }
  }

  ghost predicate Ready(db: Database, a: Author, content: OperationId -> Operation) {
    DatabaseInv(db) && ResourcesKnown(db) && Authentic(db, a, content) && ContextReady(db, a)
  }

  /** The row is a stored, live record. */
  ghost predicate StoredRecord(db: Database, e: Entry) {
    e.op.id in Ops(db.graph.log) && Ops(db.graph.log)[e.op.id] == e.op && e.op.body.PutRecord? && Verified(e.op)
  }

  ghost predicate StoredRecords(db: Database, rows: seq<Entry>) { forall i | 0 <= i < |rows| :: StoredRecord(db, rows[i]) }

  function DestKey(a: Author, e: Entry): Key { (a.context.space, e.op.entity) }

  ghost predicate OneSchema(db: Database, key: Key) { |SchemasOf(db.graph.log, key)| == 1 }

  ghost predicate OnlyHead(db: Database, key: Key, h: OperationId, body: Body) {
    HeadsOf(db.graph.derived.heads, key) == {h} && h in Ops(db.graph.log) && Ops(db.graph.log)[h].body == body
  }

  /** The entity has one schema, and its only head carries this body. */
  ghost predicate Sole(db: Database, key: Key, body: Body) { OneSchema(db, key) && exists h :: OnlyHead(db, key, h, body) }

  ghost predicate Absent(db: Database, key: Key) { HistoryEmpty(Ops(db.graph.log), key) }

  /** A history that reading reports as corrupt. Foreign parents can leave one, without a head or with two schemas. */
  ghost predicate Unreadable(db: Database, key: Key) {
    !Absent(db, key) && (!OneSchema(db, key) || HeadsOf(db.graph.derived.heads, key) == {})
  }

  lemma ReadableEntity(db: Database, key: Key)
    requires HeadRowsMatch(Ops(db.graph.log), db.graph.derived.heads)
    ensures Absent(db, key) ==> Entity(db.graph, key) == Ok(None)
    ensures Unreadable(db, key) ==> Entity(db.graph, key) == Err(Corrupt)
    ensures !Absent(db, key) && !Unreadable(db, key) ==>
              && Entity(db.graph, key).Ok? && Entity(db.graph, key).value.Some?
              && Entity(db.graph, key).value.value.heads == SortedHeads(db.graph, key)
  {
    HistoryIsEmpty(db.graph.log, key);
    ObservedHeads(db.graph, key);
    assert SortedHeads(db.graph, key) == [] <==> HeadsOf(db.graph.derived.heads, key) == {};
  }

  lemma SoleIsUnique(db: Database, key: Key, one: Body, two: Body)
    requires Sole(db, key, one) && Sole(db, key, two)
    ensures one == two
  {
    var h :| OnlyHead(db, key, h, one);
    var k :| OnlyHead(db, key, k, two);
    assert h in {k};
  }

  lemma SoleIsPresent(db: Database, key: Key, body: Body)
    requires HeadRowsMatch(Ops(db.graph.log), db.graph.derived.heads) && Sole(db, key, body)
    ensures !Absent(db, key)
  {
    var h :| OnlyHead(db, key, h, body);
    assert h in HeadsOf(db.graph.derived.heads, key);
  }

  /** The loop's test for an imported record is exactly that its body is the entity's sole head. */
  lemma AlreadyImportedIsSole(db: Database, key: Key, body: Body)
    requires HeadRowsMatch(Ops(db.graph.log), db.graph.derived.heads) && OneSchema(db, key)
    ensures AlreadyImported(db, SortedHeads(db.graph, key), body) <==> Sole(db, key, body)
  {
    var heads, sorted := HeadsOf(db.graph.derived.heads, key), SortedHeads(db.graph, key);
    ObservedHeads(db.graph, key);
    if |sorted| == 1 {
      assert sorted[0] in sorted;
      assert heads == {sorted[0]} by {
        forall h | h in heads ensures h == sorted[0] { assert h in sorted; }
      }
      assert AlreadyImported(db, sorted, body) ==> OnlyHead(db, key, sorted[0], body);
    }
    if Sole(db, key, body) {
      var h :| OnlyHead(db, key, h, body);
      assert |sorted| == 1 && sorted[0] in sorted;
    }
  }

  lemma FoundOutcome(db: Database, a: Author, n: nat, row: Entry, found: LocalEntity)
    requires row.op.body.PutRecord? && Entity(db.graph, DestKey(a, row)) == Ok(Some(found))
    ensures ImportOne(db, a, n, row) ==
            ImportOutcome(db, n, if AlreadyImported(db, found.heads, row.op.body) then None
                                 else Some(PairingImportCollision(row.op.entity)))
  {
  }

  lemma CorruptOutcome(db: Database, a: Author, n: nat, row: Entry)
    requires row.op.body.PutRecord? && Entity(db.graph, DestKey(a, row)) == Err(Corrupt)
    ensures ImportOne(db, a, n, row) == ImportOutcome(db, n, Some(OfStore(Corrupt)))
  {
  }

  lemma PresentOutcome(db: Database, a: Author, n: nat, row: Entry)
    requires DatabaseInv(db) && row.op.body.PutRecord? && !Absent(db, DestKey(a, row))
    ensures ImportOne(db, a, n, row) ==
            ImportOutcome(db, n, if Unreadable(db, DestKey(a, row)) then Some(OfStore(Corrupt))
                                 else if Sole(db, DestKey(a, row), row.op.body) then None
                                 else Some(PairingImportCollision(row.op.entity)))
  {
    var key := DestKey(a, row);
    ReadableEntity(db, key);
    if Unreadable(db, key) {
      CorruptOutcome(db, a, n, row);
    } else {
      FoundOutcome(db, a, n, row, Entity(db.graph, key).value.value);
      AlreadyImportedIsSole(db, key, row.op.body);
    }
  }

  // ----- an absent entity is always importable -----

  lemma ImportIsAuthored(a: Author, n: nat, row: Entry)
    requires Honest(a) && Verified(row.op) && row.op.body.PutRecord?
    requires 0 < |a.context.authorization| <= MAX_AUTHORIZATION_REFERENCES && StrictlySorted(a.context.authorization, NatLess)
    ensures ImportRecord(a, n, row.op.entity, row.op.body.record).Ok?
  {
    var draft := DraftOf(a, n, row.op.entity, Record, [], row.op.body);
    assert ProjectionMatches(a.sign(draft), draft, a.actor);
    assert 0 <= a.clock(n);
  }

  lemma RootIsLegal(ops: OpMap, op: Operation)
    requires Verified(op) && op.parents == [] && op.body.PutRecord? && op.id !in ops && HistoryEmpty(ops, KeyOf(op))
    requires forall id | id in op.authorization :: id in ops
    ensures LegalNext(ops, op)
  {
  }

  lemma RootPassesTopology(g: Graph, op: Operation)
    requires HeadRowsMatch(Ops(g.log), g.derived.heads) && op.parents == [] && op.body.PutRecord?
    requires HistoryEmpty(Ops(g.log), KeyOf(op))
    ensures CheckTopology(g, op).Ok?
  {
    HistoryIsEmpty(g.log, KeyOf(op));
    NoHeadsWithoutHistory(g, KeyOf(op));
  }

  lemma SameResources(db: Database, row: Entry, op: Operation)
    requires ResourcesKnown(db) && StoredRecord(db, row) && op.body == row.op.body
    ensures Knows(db.media, op, |Resources(op.body)|)
  {
    assert Knows(db.media, row.op, |Resources(row.op.body)|);
  }

  /** A record whose entity the destination lacks is always imported. */
  lemma AbsentIsImported(db: Database, a: Author, content: OperationId -> Operation, n: nat, row: Entry) returns (op: Operation)
    requires Ready(db, a, content) && Honest(a) && StoredRecord(db, row) && Absent(db, DestKey(a, row))
    ensures ImportRecord(a, n, row.op.entity, row.op.body.record) == Ok(op)
    ensures Verified(op) && KeyOf(op) == DestKey(a, row) && op.body == row.op.body && op.parents == []
    ensures op.id !in Ops(db.graph.log) && Commit(db, op, op.occurredAt, Local).Ok? && content(op.id) == op
  {
    ImportIsAuthored(a, n, row);
    ImportedIsRoot(a, n, row);
    op := ImportRecord(a, n, row.op.entity, row.op.body.record).value;
    assert content(op.id) == op;
    FreshBecauseAbsent(Ops(db.graph.log), op, content);
    SameResources(db, row, op);
    RootIsCommitted(db, op);
  }

  lemma RootIsAdmitted(g: Graph, op: Operation, at: int, local: bool)
    requires Inv(g) && Verified(op) && op.parents == [] && op.body.PutRecord? && op.id !in Ops(g.log)
    requires HistoryEmpty(Ops(g.log), KeyOf(op)) && forall id | id in op.authorization :: id in Ops(g.log)
    ensures Admit(g, op, at, local).Ok?
  {
    RootIsLegal(Ops(g.log), op);
    ReferencesExact(g.log, op);
    RootPassesTopology(g, op);
    ProjectionIsInserted(Ops(g.log), g.derived, op);
  }

  lemma RootIsCommitted(db: Database, op: Operation)
    requires DatabaseInv(db) && Verified(op) && op.parents == [] && op.body.PutRecord? && op.id !in Ops(db.graph.log)
    requires HistoryEmpty(Ops(db.graph.log), KeyOf(op)) && Knows(db.media, op, |Resources(op.body)|)
    requires forall id | id in op.authorization :: id in Ops(db.graph.log)
    ensures Commit(db, op, op.occurredAt, Local).Ok?
  {
    RootIsAdmitted(db.graph, op, op.occurredAt, true);
    LengthsWithinSelf(db.media);
    NewOperationIsCommitted(db, db.media, op, op.occurredAt, Local);
  }

  lemma LengthsWithinSelf(m: Media)
    ensures LengthsWithin(m, m)
  {
  }

  lemma FreshBecauseAbsent(ops: OpMap, op: Operation, content: OperationId -> Operation)
    requires forall id | id in ops :: ops[id] == content(id)
    requires content(op.id) == op && HistoryEmpty(ops, KeyOf(op))
    ensures op.id !in ops
  {
  }

  /** After a successful commit the new root is the only head and the only operation of its entity. */
  ghost predicate BecameRoot(db: Database, next: Database, op: Operation) {
    && Ops(next.graph.log) == Ops(db.graph.log)[op.id := op]
    && HeadsOf(next.graph.derived.heads, KeyOf(op)) == {op.id}
    && (forall key | key != KeyOf(op) :: HeadsOf(next.graph.derived.heads, key) == HeadsOf(db.graph.derived.heads, key))
    && OneSchema(next, KeyOf(op)) && (forall key | key != KeyOf(op) :: OneSchema(next, key) <==> OneSchema(db, key))
  }

  lemma RootBecomesSole(db: Database, op: Operation)
    requires DatabaseInv(db) && op.parents == [] && op.id !in Ops(db.graph.log) && HistoryEmpty(Ops(db.graph.log), KeyOf(op))
    requires Commit(db, op, op.occurredAt, Local).Ok?
    ensures BecameRoot(db, Commit(db, op, op.occurredAt, Local).value, op)
  {
    CommitAdmits(db, op, op.occurredAt, Local);
    AdmittedRootOps(db.graph, op, op.occurredAt, true);
    AdmittedRootHeads(db.graph, op, op.occurredAt, true);
    NoHeadsWithoutHistory(db.graph, KeyOf(op));
    RootKeepsSchemas(db, op);
  }

  lemma RootKeepsSchemas(db: Database, op: Operation)
    requires op.id !in Ops(db.graph.log) && HistoryEmpty(Ops(db.graph.log), KeyOf(op))
    requires Admit(db.graph, op, op.occurredAt, true).Ok? && Commit(db, op, op.occurredAt, Local).Ok?
    ensures
      var next := Commit(db, op, op.occurredAt, Local).value;
      OneSchema(next, KeyOf(op)) && forall key | key != KeyOf(op) :: OneSchema(next, key) <==> OneSchema(db, key)
  {
    var next := Commit(db, op, op.occurredAt, Local).value;
    CommitAdmits(db, op, op.occurredAt, Local);
    HistoryIsEmpty(db.graph.log, KeyOf(op));
    assert SchemasOf(db.graph.log, KeyOf(op)) == {};
    AdmitKeepsSingleSchema(db.graph, op, op.occurredAt, true, KeyOf(op));
    forall key | key != KeyOf(op) ensures OneSchema(next, key) <==> OneSchema(db, key) {
      AdmitKeepsSingleSchema(db.graph, op, op.occurredAt, true, key);
      assert SchemasOf(next.graph.log, key) == SchemasOf(db.graph.log, key);
    }
  }

  lemma NoHeadsWithoutHistory(g: Graph, key: Key)
    requires HeadRowsMatch(Ops(g.log), g.derived.heads) && HistoryEmpty(Ops(g.log), key)
    ensures HeadsOf(g.derived.heads, key) == {}
  {
  }

  lemma RootEffects(db: Database, next: Database, op: Operation)
    requires BecameRoot(db, next, op) && op.id !in Ops(db.graph.log)
    requires HeadRowsMatch(Ops(db.graph.log), db.graph.derived.heads)
    ensures Sole(next, KeyOf(op), op.body)
    ensures forall key | key != KeyOf(op) :: Absent(next, key) <==> Absent(db, key)
    ensures forall key | key != KeyOf(op) :: Unreadable(next, key) <==> Unreadable(db, key)
    ensures forall key: Key, body | key != KeyOf(op) :: Sole(next, key, body) <==> Sole(db, key, body)
  {
    assert OnlyHead(next, KeyOf(op), op.id, op.body);
    forall key | key != KeyOf(op) ensures Absent(next, key) <==> Absent(db, key) {
      if Absent(next, key) {
        forall id | id in Ops(db.graph.log) ensures KeyOf(Ops(db.graph.log)[id]) != key { assert id in Ops(next.graph.log); }
      }
    }
    forall key: Key, body | key != KeyOf(op) ensures Sole(next, key, body) <==> Sole(db, key, body) {
      forall h: OperationId ensures OnlyHead(next, key, h, body) <==> OnlyHead(db, key, h, body) {
        if HeadsOf(db.graph.derived.heads, key) == {h} { assert h in HeadsOf(db.graph.derived.heads, key); }
      }
    }
  }

  /** What one row asks of the destination. */
  ghost predicate Fits(db: Database, a: Author, row: Entry) {
    Absent(db, DestKey(a, row)) || Sole(db, DestKey(a, row), row.op.body)
  }

  /** No entity has two live bodies among the rows, and every row fits the destination. */
  ghost predicate Mergeable(db: Database, a: Author, rows: seq<Entry>) {
    && (forall i, j | 0 <= i < j < |rows| && rows[i].op.entity == rows[j].op.entity :: rows[i].op.body == rows[j].op.body)
    && (forall i | 0 <= i < |rows| :: Fits(db, a, rows[i]))
  }

  /** What a successful import of one row does to the destination. */
  ghost predicate Imported(db: Database, next: Database, a: Author, row: Entry) {
    && Sole(next, DestKey(a, row), row.op.body)
    && (forall key | key != DestKey(a, row) :: Absent(next, key) <==> Absent(db, key))
    && (forall key | key != DestKey(a, row) :: Unreadable(next, key) <==> Unreadable(db, key))
    && (forall key: Key, body | key != DestKey(a, row) :: Sole(next, key, body) <==> Sole(db, key, body))
  }

  lemma KnownAfterRoot(db: Database, op: Operation)
    requires DatabaseInv(db) && ResourcesKnown(db) && Commit(db, op, op.occurredAt, Local).Ok?
    ensures ResourcesKnown(Commit(db, op, op.occurredAt, Local).value)
  {
    NextKeepsKnown(db, CommitStep(op, op.occurredAt, Local));
  }

  lemma ReadyAfterCommit(db: Database, a: Author, content: OperationId -> Operation, op: Operation)
    requires Ready(db, a, content) && op.parents == [] && op.id !in Ops(db.graph.log) && content(op.id) == op
    requires Commit(db, op, op.occurredAt, Local).Ok?
    ensures Ready(Commit(db, op, op.occurredAt, Local).value, a, content)
  {
    NextKeepsInv(db, CommitStep(op, op.occurredAt, Local));
    KnownAfterRoot(db, op);
    CommitStores(db, op, op.occurredAt, Local);
    StillAuthentic(db, Commit(db, op, op.occurredAt, Local).value, a, content, op);
  }

  lemma StillAuthentic(db: Database, next: Database, a: Author, content: OperationId -> Operation, op: Operation)
    requires Authentic(db, a, content) && ContextReady(db, a) && content(op.id) == op
    requires Ops(next.graph.log) == Ops(db.graph.log)[op.id := op]
    ensures Authentic(next, a, content) && ContextReady(next, a)
  {
  }

  /** A fitting row is imported or was already there; either way its body is the sole head, other entities are as
      before, and the merge can go on. */
  lemma FittingRowSucceeds(db: Database, a: Author, content: OperationId -> Operation, n: nat, row: Entry)
    requires Ready(db, a, content) && Honest(a) && StoredRecord(db, row) && Fits(db, a, row)
    ensures
      var next := ImportOne(db, a, n, row);
      && next.error.None? && Ready(next.db, a, content) && Imported(db, next.db, a, row)
      && (forall id | id in Ops(db.graph.log) :: id in Ops(next.db.graph.log) && Ops(next.db.graph.log)[id] == Ops(db.graph.log)[id])
  {
    if Absent(db, DestKey(a, row)) {
      AbsentRowSucceeds(db, a, content, n, row);
    } else {
      SoleIsReadable(db, DestKey(a, row), row.op.body);
      PresentOutcome(db, a, n, row);
    }
  }

  lemma SoleIsReadable(db: Database, key: Key, body: Body)
    requires Sole(db, key, body)
    ensures !Unreadable(db, key)
  {
    var h :| OnlyHead(db, key, h, body);
    assert h in HeadsOf(db.graph.derived.heads, key);
  }

  lemma AbsentOutcome(db: Database, a: Author, n: nat, row: Entry, op: Operation)
    requires row.op.body.PutRecord? && Entity(db.graph, DestKey(a, row)) == Ok(None)
    requires ImportRecord(a, n, row.op.entity, row.op.body.record) == Ok(op) && Commit(db, op, op.occurredAt, Local).Ok?
    ensures ImportOne(db, a, n, row) == ImportOutcome(Commit(db, op, op.occurredAt, Local).value, n + 1, None)
  {
  }

  lemma RootIsImported(db: Database, a: Author, row: Entry, op: Operation)
    requires DatabaseInv(db) && op.parents == [] && op.id !in Ops(db.graph.log) && Absent(db, KeyOf(op))
    requires Commit(db, op, op.occurredAt, Local).Ok? && KeyOf(op) == DestKey(a, row) && op.body == row.op.body
    ensures
      var next := Commit(db, op, op.occurredAt, Local).value;
      && Imported(db, next, a, row)
      && (forall id | id in Ops(db.graph.log) :: id in Ops(next.graph.log) && Ops(next.graph.log)[id] == Ops(db.graph.log)[id])
  {
    RootBecomesSole(db, op);
    ImportedByRoot(db, Commit(db, op, op.occurredAt, Local).value, a, row, op);
  }

  lemma ImportedByRoot(db: Database, next: Database, a: Author, row: Entry, op: Operation)
    requires BecameRoot(db, next, op) && op.id !in Ops(db.graph.log)
    requires HeadRowsMatch(Ops(db.graph.log), db.graph.derived.heads)
    requires KeyOf(op) == DestKey(a, row) && op.body == row.op.body
    ensures Imported(db, next, a, row)
    ensures forall id | id in Ops(db.graph.log) :: id in Ops(next.graph.log) && Ops(next.graph.log)[id] == Ops(db.graph.log)[id]
  {
    RootEffects(db, next, op);
  }

  lemma AbsentRowSucceeds(db: Database, a: Author, content: OperationId -> Operation, n: nat, row: Entry)
    requires Ready(db, a, content) && Honest(a) && StoredRecord(db, row) && Absent(db, DestKey(a, row))
    ensures
      var next := ImportOne(db, a, n, row);
      && next.error.None? && Ready(next.db, a, content) && Imported(db, next.db, a, row)
      && (forall id | id in Ops(db.graph.log) :: id in Ops(next.db.graph.log) && Ops(next.db.graph.log)[id] == Ops(db.graph.log)[id])
  {
    var op := AbsentIsImported(db, a, content, n, row);
    ReadableEntity(db, DestKey(a, row));
    AbsentOutcome(db, a, n, row, op);
    ReadyAfterCommit(db, a, content, op);
    RootIsImported(db, a, row, op);
  }

  lemma MisfitRowBlocks(db: Database, a: Author, n: nat, row: Entry, readable: bool)
    requires DatabaseInv(db) && row.op.body.PutRecord? && !Fits(db, a, row)
    requires readable ==> !Unreadable(db, DestKey(a, row))
    ensures ImportOne(db, a, n, row).error.Some? && Blocks(ImportOne(db, a, n, row).error.value, readable)
  {
    PresentOutcome(db, a, n, row);
  }

  /** After a fitting row, another row fits exactly when it did before and does not ask for a second body. */
  lemma FitsAfter(db: Database, next: Database, a: Author, row: Entry, other: Entry)
    requires HeadRowsMatch(Ops(db.graph.log), db.graph.derived.heads)
    requires HeadRowsMatch(Ops(next.graph.log), next.graph.derived.heads)
    requires Imported(db, next, a, row) && Fits(db, a, row)
    ensures Fits(next, a, other) <==>
            Fits(db, a, other) && (other.op.entity == row.op.entity ==> other.op.body == row.op.body)
  {
    var key := DestKey(a, row);
    if other.op.entity == row.op.entity {
      SoleIsPresent(next, key, row.op.body);
      if Fits(next, a, other) { SoleIsUnique(next, key, row.op.body, other.op.body); }
    }
  }

  lemma MergeableAfter(db: Database, next: Database, a: Author, rows: seq<Entry>)
    requires HeadRowsMatch(Ops(db.graph.log), db.graph.derived.heads)
    requires HeadRowsMatch(Ops(next.graph.log), next.graph.derived.heads)
    requires rows != [] && Imported(db, next, a, rows[0]) && Fits(db, a, rows[0])
    ensures Mergeable(next, a, rows[1..]) <==> Mergeable(db, a, rows)
  {
    var rest := rows[1..];
    forall i | 0 <= i < |rest|
      ensures Fits(next, a, rest[i]) <==>
              Fits(db, a, rest[i]) && (rest[i].op.entity == rows[0].op.entity ==> rest[i].op.body == rows[0].op.body)
    {
      FitsAfter(db, next, a, rows[0], rest[i]);
    }
    if Mergeable(next, a, rest) {
      forall i | 0 <= i < |rows| ensures Fits(db, a, rows[i]) { if i > 0 { assert rows[i] == rest[i - 1]; } }
      forall i, j | 0 <= i < j < |rows| && rows[i].op.entity == rows[j].op.entity ensures rows[i].op.body == rows[j].op.body {
        assert rows[j] == rest[j - 1];
        if i > 0 { assert rows[i] == rest[i - 1]; }
      }
    }
    if Mergeable(db, a, rows) {
      forall i | 0 <= i < |rest| ensures Fits(next, a, rest[i]) { assert rest[i] == rows[i + 1]; }
      forall i, j | 0 <= i < j < |rest| && rest[i].op.entity == rest[j].op.entity ensures rest[i].op.body == rest[j].op.body {
        assert rest[i] == rows[i + 1] && rest[j] == rows[j + 1];
      }
    }
  }

  lemma StillStored(db: Database, next: Database, rows: seq<Entry>)
    requires StoredRecords(db, rows) && rows != []
    requires forall id | id in Ops(db.graph.log) :: id in Ops(next.graph.log) && Ops(next.graph.log)[id] == Ops(db.graph.log)[id]
    ensures StoredRecords(next, rows[1..])
  {
    forall i | 0 <= i < |rows[1..]| ensures StoredRecord(next, rows[1..][i]) { assert StoredRecord(db, rows[i + 1]); }
  }

  /** The merge under way: `rest` of the rows `all` is still to come, and all of them still fit. */
  ghost predicate Merging(db: Database, a: Author, content: OperationId -> Operation, all: seq<Entry>, rest: seq<Entry>) {
    && Ready(db, a, content) && StoredRecords(db, all) && Mergeable(db, a, all)
    && (forall i | 0 <= i < |rest| :: rest[i] in all)
  }

  lemma MergeableKept(db: Database, next: Database, a: Author, all: seq<Entry>, k: nat)
    requires HeadRowsMatch(Ops(db.graph.log), db.graph.derived.heads)
    requires HeadRowsMatch(Ops(next.graph.log), next.graph.derived.heads)
    requires Mergeable(db, a, all) && k < |all| && Imported(db, next, a, all[k])
    ensures Mergeable(next, a, all)
  {
    assert Fits(db, a, all[k]);
    forall i | 0 <= i < |all| ensures Fits(next, a, all[i]) {
      assert Fits(db, a, all[i]);
      FitsAfter(db, next, a, all[k], all[i]);
    }
  }

  lemma MergeKeeps(db: Database, a: Author, content: OperationId -> Operation, all: seq<Entry>, n: nat, i: nat)
    requires Ready(db, a, content) && StoredRecords(db, all) && Mergeable(db, a, all) && Honest(a) && i < |all|
    ensures
      var next := ImportOne(db, a, n, all[i]);
      && next.error.None? && Ready(next.db, a, content) && StoredRecords(next.db, all) && Mergeable(next.db, a, all)
      && Imported(db, next.db, a, all[i])
  {
    assert StoredRecord(db, all[i]) && Fits(db, a, all[i]);
    FittingRowSucceeds(db, a, content, n, all[i]);
    var next := ImportOne(db, a, n, all[i]);
    AllStillStored(db, next.db, all);
    MergeableKept(db, next.db, a, all, i);
  }

  /** Every row of a merge under way succeeds, becomes a sole head, and takes no sole head away. */
  lemma MergeAdvances(db: Database, a: Author, content: OperationId -> Operation, all: seq<Entry>, n: nat, rest: seq<Entry>)
    requires Merging(db, a, content, all, rest) && Honest(a) && rest != []
    ensures
      var next := ImportOne(db, a, n, rest[0]);
      next.error.None? && Merging(next.db, a, content, all, rest[1..]) && Imported(db, next.db, a, rest[0])
  {
    assert rest[0] in all;
    var i :| 0 <= i < |all| && all[i] == rest[0];
    MergeKeeps(db, a, content, all, n, i);
    RestStaysIn(all, rest);
  }

  lemma RestStaysIn(all: seq<Entry>, rest: seq<Entry>)
    requires rest != [] && forall i | 0 <= i < |rest| :: rest[i] in all
    ensures forall i | 0 <= i < |rest[1..]| :: rest[1..][i] in all
  {
    forall i | 0 <= i < |rest[1..]| ensures rest[1..][i] in all { assert rest[1..][i] == rest[i + 1]; }
  }

  lemma AllStillStored(db: Database, next: Database, all: seq<Entry>)
    requires StoredRecords(db, all)
    requires forall id | id in Ops(db.graph.log) :: id in Ops(next.graph.log) && Ops(next.graph.log)[id] == Ops(db.graph.log)[id]
    ensures StoredRecords(next, all)
  {
    forall j | 0 <= j < |all| ensures StoredRecord(next, all[j]) { assert StoredRecord(db, all[j]); }
  }

  ghost function MergingOf(a: Author, content: OperationId -> Operation, all: seq<Entry>): (Database, seq<Entry>) -> bool {
    (db, rest) => Merging(db, a, content, all, rest)
  }

  /** Importing any of the rows, in any number, succeeds and leaves the whole merge possible. */
  lemma MergeGoesThrough(db: Database, a: Author, content: OperationId -> Operation, n: nat, all: seq<Entry>, rows: seq<Entry>)
    requires Merging(db, a, content, all, rows) && Honest(a)
    ensures ImportAll(db, a, n, rows).error.None? && Merging(ImportAll(db, a, n, rows).db, a, content, all, [])
  {
    var holds := MergingOf(a, content, all);
    forall d, m: nat, rest: seq<Entry> | holds(d, rest) && rest != []
      ensures ImporterOf(a)(d, m, rest[0]).error.None? && holds(ImporterOf(a)(d, m, rest[0]).db, rest[1..])
    {
      MergeAdvances(d, a, content, all, m, rest);
    }
    FoldKeeps(ImporterOf(a), holds, db, n, rows);
  }

  ghost predicate AllReadable(db: Database, a: Author, rows: seq<Entry>) {
    forall i | 0 <= i < |rows| :: !Unreadable(db, DestKey(a, rows[i]))
  }

  ghost predicate Unmergeable(db: Database, a: Author, content: OperationId -> Operation, readable: bool, rows: seq<Entry>) {
    && Ready(db, a, content) && StoredRecords(db, rows) && !Mergeable(db, a, rows)
    && (readable ==> AllReadable(db, a, rows))
  }

  lemma StillReadable(db: Database, next: Database, a: Author, rows: seq<Entry>)
    requires rows != [] && AllReadable(db, a, rows) && Imported(db, next, a, rows[0])
    ensures AllReadable(next, a, rows[1..])
  {
    SoleIsReadable(next, DestKey(a, rows[0]), rows[0].op.body);
    forall i | 0 <= i < |rows[1..]| ensures !Unreadable(next, DestKey(a, rows[1..][i])) {
      assert rows[1..][i] == rows[i + 1] && !Unreadable(db, DestKey(a, rows[i + 1]));
    }
  }

  lemma UnmergeableStays(db: Database, a: Author, content: OperationId -> Operation, readable: bool, n: nat, rows: seq<Entry>)
    requires Unmergeable(db, a, content, readable, rows) && Honest(a) && rows != []
    ensures BlocksOr(ImportOne(db, a, n, rows[0]), readable,
                     Unmergeable(ImportOne(db, a, n, rows[0]).db, a, content, readable, rows[1..]))
  {
    assert StoredRecord(db, rows[0]);
    if Fits(db, a, rows[0]) {
      FittingRowSucceeds(db, a, content, n, rows[0]);
      var next := ImportOne(db, a, n, rows[0]);
      StillStored(db, next.db, rows);
      MergeableAfter(db, next.db, a, rows);
      if readable { StillReadable(db, next.db, a, rows); }
    } else {
      MisfitRowBlocks(db, a, n, rows[0], readable);
    }
  }

  lemma NothingIsMergeable(db: Database, a: Author)
    ensures Mergeable(db, a, [])
  {
  }

  ghost function UnmergeableOf(a: Author, content: OperationId -> Operation, readable: bool): (Database, seq<Entry>) -> bool {
    (db, rows) => Unmergeable(db, a, content, readable, rows)
  }

  lemma UnmergeableIsBlocked(db: Database, a: Author, content: OperationId -> Operation, readable: bool, n: nat, rows: seq<Entry>)
    requires Unmergeable(db, a, content, readable, rows) && Honest(a)
    ensures ImportAll(db, a, n, rows).error.Some? && Blocks(ImportAll(db, a, n, rows).error.value, readable)
  {
    var bad, step := UnmergeableOf(a, content, readable), ImporterOf(a);
    forall d, rest: seq<Entry> | bad(d, rest) ensures rest != [] { NothingIsMergeable(d, a); }
    forall d, m: nat, rest: seq<Entry> | bad(d, rest)
      ensures BlocksOr(step(d, m, rest[0]), readable, bad(step(d, m, rest[0]).db, rest[1..]))
    {
      UnmergeableStays(d, a, content, readable, m, rest);
    }
    FoldBlocks(step, bad, readable, db, n, rows);
  }

  /** The merge succeeds if and only if no entity has two live bodies and each fits the destination: absent there, or
      readable with this body as its sole head. Otherwise it stops on a collision, or on a corrupt history if the
      destination holds one for some row. */
  lemma MergeSucceedsExactly(db: Database, a: Author, content: OperationId -> Operation, n: nat, rows: seq<Entry>)
    requires Ready(db, a, content) && Honest(a) && StoredRecords(db, rows)
    ensures ImportAll(db, a, n, rows).error.None? <==> Mergeable(db, a, rows)
    ensures ImportAll(db, a, n, rows).error.Some? ==> Blocks(ImportAll(db, a, n, rows).error.value, AllReadable(db, a, rows))
  {
    if Mergeable(db, a, rows) {
      MergeGoesThrough(db, a, content, n, rows, rows);
    } else {
      UnmergeableIsBlocked(db, a, content, AllReadable(db, a, rows), n, rows);
    }
  }

  /** Merging, and the given row is either still to come or already a sole head. */
  ghost function TrackingOf(a: Author, content: OperationId -> Operation, all: seq<Entry>, row: Entry)
    : (Database, seq<Entry>) -> bool
  {
    (db, rest) => Merging(db, a, content, all, rest) && (row in rest || Sole(db, DestKey(a, row), row.op.body))
  }

  lemma OneBodyPerEntity(db: Database, a: Author, all: seq<Entry>, row: Entry, other: Entry)
    requires Mergeable(db, a, all) && row in all && other in all && row.op.entity == other.op.entity
    ensures row.op.body == other.op.body
  {
    var i :| 0 <= i < |all| && all[i] == row;
    var j :| 0 <= j < |all| && all[j] == other;
    assert all[i].op.entity == all[j].op.entity;
  }

  lemma TrackedRow(db: Database, a: Author, content: OperationId -> Operation, all: seq<Entry>, row: Entry, n: nat,
                   rest: seq<Entry>)
    requires Merging(db, a, content, all, rest) && Honest(a) && rest != [] && row in all
    requires row in rest || Sole(db, DestKey(a, row), row.op.body)
    ensures row in rest[1..] || Sole(ImportOne(db, a, n, rest[0]).db, DestKey(a, row), row.op.body)
  {
    var first := rest[0];
    assert first in all && (row in rest ==> row == first || row in rest[1..]);
    MergeAdvances(db, a, content, all, n, rest);
    if row.op.entity == first.op.entity { OneBodyPerEntity(db, a, all, row, first); }
  }

  /** After a successful merge every live source record is the sole head of the same entity in the destination. */
  lemma MergedRecordsAreSoleHeads(db: Database, a: Author, content: OperationId -> Operation, n: nat, rows: seq<Entry>, i: nat)
    requires Ready(db, a, content) && Honest(a) && StoredRecords(db, rows) && Mergeable(db, a, rows) && i < |rows|
    ensures Sole(ImportAll(db, a, n, rows).db, DestKey(a, rows[i]), rows[i].op.body)
  {
    var row := rows[i];
    var holds := TrackingOf(a, content, rows, row);
    forall d, m: nat, rest: seq<Entry> | holds(d, rest) && rest != []
      ensures ImporterOf(a)(d, m, rest[0]).error.None? && holds(ImporterOf(a)(d, m, rest[0]).db, rest[1..])
    {
      MergeAdvances(d, a, content, rows, m, rest);
      TrackedRow(d, a, content, rows, row, m, rest);
    }
    assert Merging(db, a, content, rows, rows);
    FoldKeeps(ImporterOf(a), holds, db, n, rows);
  }

  // ----- running it again -----

  ghost predicate AllSole(db: Database, a: Author, rows: seq<Entry>) {
    forall i | 0 <= i < |rows| :: rows[i].op.body.PutRecord? && Sole(db, DestKey(a, rows[i]), rows[i].op.body)
  }

  lemma SoleIsSkipped(db: Database, a: Author, n: nat, row: Entry)
    requires DatabaseInv(db) && row.op.body.PutRecord? && Sole(db, DestKey(a, row), row.op.body)
    ensures ImportOne(db, a, n, row) == ImportOutcome(db, n, None)
  {
    SoleIsPresent(db, DestKey(a, row), row.op.body);
    SoleIsReadable(db, DestKey(a, row), row.op.body);
    PresentOutcome(db, a, n, row);
  }

  /** Once every row is a sole head, importing the rows again commits nothing. */
  lemma {:induction false} RerunImportsNothing(db: Database, a: Author, n: nat, rows: seq<Entry>)
    requires DatabaseInv(db) && AllSole(db, a, rows)
    ensures ImportAll(db, a, n, rows) == ImportOutcome(db, n, None)
    decreases |rows|
  {
    if rows != [] {
      SoleIsSkipped(db, a, n, rows[0]);
      forall i | 0 <= i < |rows[1..]|
        ensures rows[1..][i].op.body.PutRecord? && Sole(db, DestKey(a, rows[1..][i]), rows[1..][i].op.body)
      {
        assert rows[1..][i] == rows[i + 1];
      }
      RerunImportsNothing(db, a, n, rows[1..]);
    }
  }

  lemma HistoryAfterOne(db: Database, a: Author, n: nat, row: Entry, key: Key)
    requires DatabaseInv(db)
    ensures
      var was, now := History(db.graph.log, key), History(ImportOne(db, a, n, row).db.graph.log, key);
      now == was || (was == {} && |now| == 1)
  {
    var made := ImportOneMoves(db, a, n, row);
    if made.Some? {
      ImportedIsRoot(a, n, row);
      AbsentIsFresh(db, made.value);
      CommitStores(db, made.value, made.value.occurredAt, Local);
      HistoryAfterRoot(db, ImportOne(db, a, n, row).db, made.value, key);
    }
  }

  lemma HistoryAfterRoot(db: Database, next: Database, op: Operation, key: Key)
    requires op.id !in Ops(db.graph.log) && Ops(next.graph.log) == Ops(db.graph.log)[op.id := op]
    requires History(db.graph.log, KeyOf(op)) == {}
    ensures History(next.graph.log, key) == if key == KeyOf(op) then {op.id} else History(db.graph.log, key)
  {
    forall id ensures id in History(next.graph.log, key) <==>
                      id in (if key == KeyOf(op) then {op.id} else History(db.graph.log, key))
    {
      if id in Ops(db.graph.log) && key == KeyOf(op) { assert id !in History(db.graph.log, key); }
    }
  }

  ghost function AtMostOnceFrom(db: Database, key: Key): Database -> bool {
    d =>
      && DatabaseInv(d)
      && (|| History(d.graph.log, key) == History(db.graph.log, key)
          || (History(db.graph.log, key) == {} && |History(d.graph.log, key)| == 1))
  }

  /** Nothing is imported twice: whatever rows are offered, however often, and wherever the run stops, an entity's
      history is either untouched or has gone from nothing to a single operation. */
  lemma NothingIsImportedTwice(db: Database, a: Author, n: nat, rows: seq<Entry>, key: Key)
    requires DatabaseInv(db)
    ensures
      var was, now := History(db.graph.log, key), History(ImportAll(db, a, n, rows).db.graph.log, key);
      now == was || (was == {} && |now| == 1)
  {
    var reached := AtMostOnceFrom(db, key);
    forall d, m: nat, row | reached(d) ensures reached(ImporterOf(a)(d, m, row).db) {
      HistoryAfterOne(d, a, m, row, key);
      ImportOneIsSafe(d, a, m, row);
    }
    FoldReaches(ImporterOf(a), reached, db, n, rows);
  }

  // ----- the theorem about the loop -----

  lemma LiveRowsAreStored(db: Database, source: SpaceId)
    requires DatabaseInv(db)
    ensures StoredRecords(db, LiveRows(db.graph.log, db.graph.derived, source))
  {
    var rows := LiveRows(db.graph.log, db.graph.derived, source);
    RowsFacts(db.graph, source);
    forall i | 0 <= i < |rows| ensures StoredRecord(db, rows[i]) {
      EntryIsStored(db.graph.log, rows[i]);
      LegalIds(db.graph.log, rows[i].op.id);
    }
  }

  /** A merge stopped after any number of rows and run again over what it then finds in the source: the rerun sees the
      same rows, succeeds, leaves every record a sole head, and running it once more commits nothing. */
  lemma MergeIsRepeatable(db: Database, a: Author, content: OperationId -> Operation, source: SpaceId, k: nat, n: nat, m: nat)
    requires Ready(db, a, content) && Honest(a) && source != a.context.space
    requires
      var rows := LiveRows(db.graph.log, db.graph.derived, source);
      k <= |rows| && Mergeable(db, a, rows)
    ensures
      var rows := LiveRows(db.graph.log, db.graph.derived, source);
      var part := ImportAll(db, a, 0, rows[..k]).db;
      var again := ImportAll(part, a, n, LiveRows(part.graph.log, part.graph.derived, source));
      && LiveRows(part.graph.log, part.graph.derived, source) == rows
      && again.error.None?
      && AllSole(again.db, a, rows)
      && ImportAll(again.db, a, m, LiveRows(again.db.graph.log, again.db.graph.derived, source)) == ImportOutcome(again.db, m, None)
  {
    var rows := LiveRows(db.graph.log, db.graph.derived, source);
    var part := ImportAll(db, a, 0, rows[..k]).db;
    PartIsMergeable(db, a, content, source, k);
    RerunCompletes(part, a, content, source, n, rows);
    RerunImportsNothing(ImportAll(part, a, n, rows).db, a, m, rows);
  }

  lemma PrefixIsMerging(db: Database, a: Author, content: OperationId -> Operation, rows: seq<Entry>, k: nat)
    requires Ready(db, a, content) && StoredRecords(db, rows) && Mergeable(db, a, rows) && k <= |rows|
    ensures Merging(db, a, content, rows, rows[..k])
  {
    assert forall i | 0 <= i < |rows[..k]| :: rows[..k][i] in rows;
  }

  lemma SourceIsUnchanged(db: Database, a: Author, n: nat, rows: seq<Entry>, source: SpaceId)
    requires DatabaseInv(db) && source != a.context.space
    ensures
      var next := ImportAll(db, a, n, rows).db.graph;
      LiveRows(next.log, next.derived, source) == LiveRows(db.graph.log, db.graph.derived, source)
  {
    ImportAllIsSafe(db, a, n, rows);
  }

  lemma PartIsMergeable(db: Database, a: Author, content: OperationId -> Operation, source: SpaceId, k: nat)
    requires Ready(db, a, content) && Honest(a) && source != a.context.space
    requires k <= |LiveRows(db.graph.log, db.graph.derived, source)|
    requires Mergeable(db, a, LiveRows(db.graph.log, db.graph.derived, source))
    ensures
      var rows := LiveRows(db.graph.log, db.graph.derived, source);
      var part := ImportAll(db, a, 0, rows[..k]).db;
      Merging(part, a, content, rows, []) && LiveRows(part.graph.log, part.graph.derived, source) == rows
  {
    var rows := LiveRows(db.graph.log, db.graph.derived, source);
    LiveRowsAreStored(db, source);
    PrefixIsMerging(db, a, content, rows, k);
    MergeGoesThrough(db, a, content, 0, rows, rows[..k]);
    SourceIsUnchanged(db, a, 0, rows[..k], source);
  }

  lemma RerunCompletes(db: Database, a: Author, content: OperationId -> Operation, source: SpaceId, n: nat, rows: seq<Entry>)
    requires Merging(db, a, content, rows, []) && Honest(a) && source != a.context.space
    requires rows == LiveRows(db.graph.log, db.graph.derived, source)
    ensures
      var again := ImportAll(db, a, n, rows);
      && again.error.None? && DatabaseInv(again.db) && AllSole(again.db, a, rows)
      && LiveRows(again.db.graph.log, again.db.graph.derived, source) == rows
  {
    assert Merging(db, a, content, rows, rows);
    MergeGoesThrough(db, a, content, n, rows, rows);
    SourceIsUnchanged(db, a, n, rows, source);
    var again := ImportAll(db, a, n, rows).db;
    forall i | 0 <= i < |rows| ensures rows[i].op.body.PutRecord? && Sole(again, DestKey(a, rows[i]), rows[i].op.body) {
      assert StoredRecord(db, rows[i]);
      MergedRecordsAreSoleHeads(db, a, content, n, rows, i);
    }
  }
}
