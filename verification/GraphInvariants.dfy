/** The derived tables are a function of the set of stored operations, kept exactly by every transaction. */
module GraphInvariants {
  import opened Wrappers
  import opened Operations
  import opened OperationGraph

  type OpMap = map<OperationId, Operation>

  // ----- reference definition of the tables, from the operations alone -----

  ghost predicate Names(ops: OpMap, child: OperationId, parent: OperationId) {
    child in ops && parent in ops[child].parents
  }

  /** No stored operation names it as a causal parent. */
  ghost predicate Open(ops: OpMap, id: OperationId) {
    id in ops && forall child | child in ops :: !Names(ops, child, id)
  }

  ghost predicate IsVisibilityRoot(op: Operation) {
    op.parents == [] && DeclaredVisibility(op.body).Some? && Projected(op)
  }

  ghost predicate EdgesMatch(ops: OpMap, d: Derived) {
    && (forall e :: e in d.parents <==>
          e.child in ops && e.position < |ops[e.child].parents| && ops[e.child].parents[e.position] == e.target)
    && (forall e :: e in d.authorizations <==>
          e.child in ops && e.position < |ops[e.child].authorization| && ops[e.child].authorization[e.position] == e.target)
  }

  ghost predicate HeadRowsMatch(ops: OpMap, heads: map<OperationId, HeadRow>) {
    forall id | id in heads :: id in ops && heads[id] == HeadRowOf(ops[id])
  }

  /** The heads are exactly the open operations. */
  ghost predicate HeadsExact(ops: OpMap, heads: map<OperationId, HeadRow>) {
    HeadRowsMatch(ops, heads) && forall id :: id in heads <==> Open(ops, id)
  }

  ghost predicate VisibilityMatches(ops: OpMap, d: Derived) {
    && (forall key | key in d.visibility ::
          exists id :: id in ops && IsVisibilityRoot(ops[id]) && KeyOf(ops[id]) == key)
    && (forall id | id in ops && IsVisibilityRoot(ops[id]) ::
          && KeyOf(ops[id]) in d.visibility
          && d.visibility[KeyOf(ops[id])] == VisibilityRow(ops[id].schema, DeclaredVisibility(ops[id].body).value))
  }

  ghost predicate ProjectionsMatch(ops: OpMap, d: Derived) {
    && (forall id :: id in d.projections <==> id in ops && Projected(ops[id]))
    && (forall id | id in d.projections ::
          && KeyOf(ops[id]) in d.visibility
          && d.projections[id] == ProjectionOf(ops[id], d.visibility[KeyOf(ops[id])].visibility))
  }

  /** Every table except the heads. */
  ghost predicate TablesMatch(ops: OpMap, d: Derived) {
    EdgesMatch(ops, d) && VisibilityMatches(ops, d) && ProjectionsMatch(ops, d)
  }

  ghost predicate Represents(ops: OpMap, d: Derived) { TablesMatch(ops, d) && HeadsExact(ops, d.heads) }

  lemma VisibilityIsDetermined(ops: OpMap, d: Derived, e: Derived)
    requires VisibilityMatches(ops, d) && VisibilityMatches(ops, e)
    ensures d.visibility == e.visibility
  {
    forall key | key in d.visibility ensures key in e.visibility && d.visibility[key] == e.visibility[key] {
      var id :| id in ops && IsVisibilityRoot(ops[id]) && KeyOf(ops[id]) == key;
    }
    forall key | key in e.visibility ensures key in d.visibility {
      var id :| id in ops && IsVisibilityRoot(ops[id]) && KeyOf(ops[id]) == key;
    }
  }

  /** The operations determine every table except possibly the heads. */
  lemma TablesAreDetermined(ops: OpMap, d: Derived, e: Derived)
    requires TablesMatch(ops, d) && TablesMatch(ops, e)
    ensures d == e.(heads := d.heads)
  {
    VisibilityIsDetermined(ops, d, e);
    assert d.projections.Keys == e.projections.Keys;
  }

  lemma HeadsAreDetermined(ops: OpMap, heads: map<OperationId, HeadRow>, other: map<OperationId, HeadRow>)
    requires HeadsExact(ops, heads) && HeadsExact(ops, other)
    ensures heads == other
  {
    assert heads.Keys == other.Keys;
  }

  // ----- legal logs -----

  ghost predicate HistoryEmpty(ops: OpMap, key: Key) { forall id | id in ops :: KeyOf(ops[id]) != key }

  ghost predicate RootFor(ops: OpMap, op: Operation, root: OperationId) {
    && root in ops && IsVisibilityRoot(ops[root]) && KeyOf(ops[root]) == KeyOf(op)
    && (DeclaredVisibility(op.body).Some? ==> DeclaredVisibility(ops[root].body) == DeclaredVisibility(op.body))
  }

  /** What an admitted operation satisfies relative to the operations before it. */
  ghost predicate LegalNext(ops: OpMap, op: Operation) {
    && op.id !in ops && Verified(op)
    && (forall p | p in op.parents :: p in ops && ops[p].entity == op.entity && ops[p].schema == op.schema)
    && (forall a | a in op.authorization :: a in ops)
    && (op.parents == [] ==> HistoryEmpty(ops, KeyOf(op)) && !op.body.Tombstone?)
    && (Projected(op) && op.parents != [] ==> exists root :: RootFor(ops, op, root))
  }

  ghost predicate LegalLog(log: seq<Entry>) {
    log == [] || (LegalLog(log[..|log| - 1]) && LegalNext(Ops(log[..|log| - 1]), log[|log| - 1].op))
  }

  ghost predicate SequencesAscend(g: Graph) {
    && (forall e | e in g.log :: 0 < e.sequence <= g.lastSequence)
    && Ascending(g.log)
  }

  ghost predicate Inv(g: Graph) {
    && LegalLog(g.log)
    && SequencesAscend(g)
    && TablesMatch(Ops(g.log), g.derived)
    && HeadRowsMatch(Ops(g.log), g.derived.heads)
  }

  lemma OpsAppend(log: seq<Entry>, e: Entry)
    ensures Ops(log + [e]) == Ops(log)[e.op.id := e.op]
  {
    assert (log + [e])[..|log|] == log;
  }

  lemma LegalAppend(log: seq<Entry>, e: Entry)
    requires LegalLog(log) && LegalNext(Ops(log), e.op)
    ensures LegalLog(log + [e])
  {
    assert (log + [e])[..|log|] == log;
  }

  lemma {:induction false} LegalIds(log: seq<Entry>, id: OperationId)
    requires LegalLog(log) && id in Ops(log)
    ensures
      var op := Ops(log)[id];
      && op.id == id && Verified(op)
      && (forall p | p in op.parents :: p in Ops(log) && Ops(log)[p].entity == op.entity && Ops(log)[p].schema == op.schema)
      && (forall a | a in op.authorization :: a in Ops(log))
  {
    var init := log[..|log| - 1];
    if id != log[|log| - 1].op.id { LegalIds(init, id); }
  }

  /** A stored operation never names one that is not stored. */
  lemma FreshIsUnnamed(log: seq<Entry>, id: OperationId)
    requires LegalLog(log) && id !in Ops(log)
    ensures forall child | child in Ops(log) :: !Names(Ops(log), child, id)
  {
    forall child | child in Ops(log) ensures !Names(Ops(log), child, id) { LegalIds(log, child); }
  }

  // ----- one insertion keeps the tables exact -----

  lemma InsertKeepsEdges(ops: OpMap, d: Derived, op: Operation)
    requires EdgesMatch(ops, d) && op.id !in ops
    ensures EdgesMatch(ops[op.id := op], InsertGraph(d, op))
  {
  }

  lemma InsertKeepsHeads(ops: OpMap, d: Derived, op: Operation)
    requires HeadRowsMatch(ops, d.heads) && op.id !in ops && op.id !in op.parents
    requires forall child | child in ops :: !Names(ops, child, op.id)
    ensures HeadRowsMatch(ops[op.id := op], InsertGraph(d, op).heads)
    ensures HeadsExact(ops, d.heads) ==> HeadsExact(ops[op.id := op], InsertGraph(d, op).heads)
  {
    var later := ops[op.id := op];
    var heads := InsertGraph(d, op).heads;
    if HeadsExact(ops, d.heads) {
      forall id ensures id in heads <==> Open(later, id) {
        if id in op.parents {
          assert Names(later, op.id, id);
          var i :| 0 <= i < |op.parents| && op.parents[i] == id;
          assert id in ParentSet(op);
        } else if id != op.id && id in ops {
          assert forall child | child in ops :: Names(later, child, id) <==> Names(ops, child, id);
          assert forall child | child in ops :: child in later;
        }
      }
    }
  }

  lemma DeriveHeads(d: Derived, op: Operation)
    ensures Derive(d, op).Ok? ==> Derive(d, op).value.heads == InsertGraph(d, op).heads
  {
  }

  lemma ProjectionIsInserted(ops: OpMap, d: Derived, op: Operation)
    requires LegalNext(ops, op) && VisibilityMatches(ops, d)
    ensures Derive(d, op).Ok?
  {
    if Projected(op) && op.parents != [] {
      var root :| RootFor(ops, op, root);
    }
  }

  lemma DeriveEdges(ops: OpMap, d: Derived, op: Operation)
    requires EdgesMatch(ops, d) && op.id !in ops && Derive(d, op).Ok?
    ensures EdgesMatch(ops[op.id := op], Derive(d, op).value)
  {
    InsertKeepsEdges(ops, d, op);
    var next := Derive(d, op).value;
    assert next.parents == InsertGraph(d, op).parents && next.authorizations == InsertGraph(d, op).authorizations;
  }

  /** The visibility row an operation is projected with is the one its root declared. */
  lemma DeriveKeepsTables(log: seq<Entry>, d: Derived, op: Operation)
    requires LegalLog(log) && LegalNext(Ops(log), op)
    requires TablesMatch(Ops(log), d)
    ensures Derive(d, op).Ok?
    ensures TablesMatch(Ops(log)[op.id := op], Derive(d, op).value)
  {
    ProjectionIsInserted(Ops(log), d, op);
    DeriveEdges(Ops(log), d, op);
    VisibilityKept(Ops(log), d, op, Derive(d, op).value);
    ProjectionsKept(Ops(log), d, op, Derive(d, op).value);
  }

  lemma VisibilityKept(ops: OpMap, d: Derived, op: Operation, next: Derived)
    requires VisibilityMatches(ops, d) && op.id !in ops && Derive(d, op) == Ok(next)
    requires IsVisibilityRoot(op) ==> HistoryEmpty(ops, KeyOf(op))
    ensures VisibilityMatches(ops[op.id := op], next)
  {
    var later := ops[op.id := op];
    forall key | key in next.visibility
      ensures exists id :: id in later && IsVisibilityRoot(later[id]) && KeyOf(later[id]) == key
    {
      if key in d.visibility {
        var id :| id in ops && IsVisibilityRoot(ops[id]) && KeyOf(ops[id]) == key;
        assert later[id] == ops[id];
      } else {
        assert later[op.id] == op;
      }
    }
  }

  lemma ProjectionsKept(ops: OpMap, d: Derived, op: Operation, next: Derived)
    requires ProjectionsMatch(ops, d) && op.id !in ops && Derive(d, op) == Ok(next)
    ensures ProjectionsMatch(ops[op.id := op], next)
  {
    var later := ops[op.id := op];
    forall id | id in next.projections
      ensures KeyOf(later[id]) in next.visibility
      ensures next.projections[id] == ProjectionOf(later[id], next.visibility[KeyOf(later[id])].visibility)
    {
      if id != op.id {
        assert next.projections[id] == d.projections[id];
        assert next.visibility[KeyOf(ops[id])] == d.visibility[KeyOf(ops[id])];
      }
    }
  }

  // ----- admission -----

  lemma {:induction false} FirstMissingNone(log: seq<Entry>, ids: seq<OperationId>)
    ensures FirstMissing(log, ids).None? <==> forall i | 0 <= i < |ids| :: ids[i] in Ops(log)
  {
    if ids != [] {
      FirstMissingNone(log, ids[1..]);
      assert forall i | 0 < i < |ids| :: ids[i] == ids[1..][i - 1];
      assert forall i | 0 <= i < |ids[1..]| :: ids[1..][i] == ids[i + 1];
    }
  }

  lemma {:induction false} FirstMismatchNone(log: seq<Entry>, op: Operation, parents: seq<OperationId>)
    ensures FirstMismatch(log, op, parents).None? <==>
            forall i | 0 <= i < |parents| && parents[i] in Ops(log) ::
              Ops(log)[parents[i]].entity == op.entity && Ops(log)[parents[i]].schema == op.schema
  {
    if parents != [] {
      FirstMismatchNone(log, op, parents[1..]);
      assert forall i | 0 < i < |parents| :: parents[i] == parents[1..][i - 1];
      assert forall i | 0 <= i < |parents[1..]| :: parents[1..][i] == parents[i + 1];
    }
  }

  lemma AdmittedRoot(g: Graph, op: Operation)
    requires op.parents == [] && CheckTopology(g, op).Ok?
    ensures HistoryEmpty(Ops(g.log), KeyOf(op)) && !op.body.Tombstone?
  {
    var history := History(g.log, KeyOf(op));
    assert history == {};
    forall id | id in Ops(g.log) ensures KeyOf(Ops(g.log)[id]) != KeyOf(op) { assert id !in history; }
  }

  lemma AdmittedProjection(ops: OpMap, d: Derived, op: Operation)
    requires VisibilityMatches(ops, d) && Derive(d, op).Ok? && Projected(op) && op.parents != []
    ensures exists root :: RootFor(ops, op, root)
  {
    assert KeyOf(op) in d.visibility;
    var root :| root in ops && IsVisibilityRoot(ops[root]) && KeyOf(ops[root]) == KeyOf(op);
    assert RootFor(ops, op, root);
  }

  lemma AdmittedParents(g: Graph, op: Operation)
    requires CheckReferences(g.log, op).Ok? && CheckTopology(g, op).Ok?
    ensures forall p | p in op.parents :: p in Ops(g.log) && Ops(g.log)[p].entity == op.entity && Ops(g.log)[p].schema == op.schema
    ensures forall a | a in op.authorization :: a in Ops(g.log)
  {
    FirstMissingNone(g.log, op.parents);
    FirstMissingNone(g.log, op.authorization);
    FirstMismatchNone(g.log, op, op.parents);
  }

  /** Whatever admission accepts is legal after the log, whatever the heads table holds. */
  lemma AdmittedIsLegal(g: Graph, op: Operation, storedAt: int, local: bool)
    requires Inv(g) && Verified(op) && op.id !in Ops(g.log)
    requires Admit(g, op, storedAt, local).Ok?
    ensures LegalNext(Ops(g.log), op)
  {
    AdmittedParents(g, op);
    if op.parents == [] { AdmittedRoot(g, op); }
    if Projected(op) && op.parents != [] { AdmittedProjection(Ops(g.log), g.derived, op); }
  }

  lemma AppendAscends(g: Graph, e: Entry, next: Graph)
    requires SequencesAscend(g) && e.sequence == g.lastSequence + 1
    requires next.log == g.log + [e] && next.lastSequence == e.sequence
    ensures SequencesAscend(next)
  {
    forall i | 0 <= i < |g.log| ensures g.log[i].sequence < e.sequence { assert g.log[i] in g.log; }
  }

  lemma AdmitAppends(g: Graph, op: Operation, at: int, local: bool)
    requires Admit(g, op, at, local).Ok?
    ensures Admit(g, op, at, local).value.log == g.log + [Entry(g.lastSequence + 1, op, at, local)]
  {
  }

  /** Admission keeps the index exact: the incremental tables stay what the operations determine. */
  lemma AdmitKeepsInv(g: Graph, op: Operation, storedAt: int, local: bool)
    requires Inv(g) && Verified(op) && op.id !in Ops(g.log)
    requires Admit(g, op, storedAt, local).Ok?
    ensures
      var next := Admit(g, op, storedAt, local).value;
      && Inv(next) && Ops(next.log) == Ops(g.log)[op.id := op]
      && (HeadsExact(Ops(g.log), g.derived.heads) ==> HeadsExact(Ops(next.log), next.derived.heads))
  {
    AdmittedIsLegal(g, op, storedAt, local);
    var e := Entry(g.lastSequence + 1, op, storedAt, local);
    var next := Graph(g.log + [e], g.lastSequence + 1, Derive(g.derived, op).value);
    assert Admit(g, op, storedAt, local) == Ok(next);
    AppendAscends(g, e, next);
    OpsAppend(g.log, e);
    LegalAppend(g.log, e);
    DeriveKeepsTables(g.log, g.derived, op);
    DeriveHeads(g.derived, op);
    FreshIsUnnamed(g.log, op.id);
    InsertKeepsHeads(Ops(g.log), g.derived, op);
  }

  // ----- rebuild -----

  /** Replaying a legal log always succeeds and yields exactly the tables its operations determine. */
  lemma {:induction false} RebuildRepresents(log: seq<Entry>)
    requires LegalLog(log)
    ensures Rebuild(log).Ok? && Represents(Ops(log), Rebuild(log).value)
  {
    if log != [] {
      var init, op := log[..|log| - 1], log[|log| - 1].op;
      RebuildRepresents(init);
      var d := Rebuild(init).value;
      DeriveKeepsTables(init, d, op);
      DeriveHeads(d, op);
      FreshIsUnnamed(init, op.id);
      InsertKeepsHeads(Ops(init), d, op);
    }
  }

  /** The current tables equal a replay exactly when the heads are exact; the other tables always do. */
  lemma RebuildReproducesTables(g: Graph)
    requires Inv(g)
    ensures Rebuild(g.log).Ok? && Rebuild(g.log).value == g.derived.(heads := Rebuild(g.log).value.heads)
    ensures Rebuild(g.log) == Ok(g.derived) <==> HeadsExact(Ops(g.log), g.derived.heads)
  {
    RebuildRepresents(g.log);
    var d := Rebuild(g.log).value;
    TablesAreDetermined(Ops(g.log), d, g.derived);
    if HeadsExact(Ops(g.log), g.derived.heads) { HeadsAreDetermined(Ops(g.log), d.heads, g.derived.heads); }
  }

  /** Convergence: equal operation sets give equal tables, whatever the two arrival orders were. */
  lemma SameOperationsSameTables(g: Graph, h: Graph)
    requires Inv(g) && HeadsExact(Ops(g.log), g.derived.heads)
    requires Inv(h) && HeadsExact(Ops(h.log), h.derived.heads)
    requires Ops(g.log) == Ops(h.log)
    ensures g.derived == h.derived
  {
    TablesAreDetermined(Ops(g.log), g.derived, h.derived);
    HeadsAreDetermined(Ops(g.log), g.derived.heads, h.derived.heads);
  }

  // ----- workspace deletion -----

  ghost function Remaining(ops: OpMap, space: SpaceId): OpMap {
    map id | id in ops && ops[id].space != space :: ops[id]
  }

  lemma RemainingAdd(ops: OpMap, op: Operation, space: SpaceId)
    requires op.id !in ops
    ensures Remaining(ops[op.id := op], space) ==
            if op.space == space then Remaining(ops, space) else Remaining(ops, space)[op.id := op]
  {
  }

  lemma {:induction false} OpsKeep(log: seq<Entry>, space: SpaceId)
    requires LegalLog(log)
    ensures Ops(Keep(log, space)) == Remaining(Ops(log), space)
  {
    if log != [] {
      var init, last := log[..|log| - 1], log[|log| - 1];
      OpsKeep(init, space);
      RemainingAdd(Ops(init), last.op, space);
      if last.op.space == space {
        assert Keep(log, space) == Keep(init, space);
      } else {
        OpsAppend(Keep(init, space), last);
      }
    }
  }

  /** No remaining operation refers to a deleted one. */
  ghost predicate Detached(ops: OpMap, space: SpaceId) {
    forall id | id in ops && ops[id].space != space ::
      && (forall p | p in ops[id].parents && p in ops :: ops[p].space != space)
      && (forall a | a in ops[id].authorization && a in ops :: ops[a].space != space)
  }

  lemma {:induction false} KeepIsLegal(log: seq<Entry>, space: SpaceId)
    requires LegalLog(log) && Detached(Ops(log), space)
    ensures LegalLog(Keep(log, space))
  {
    if log != [] {
      var init, last := log[..|log| - 1], log[|log| - 1];
      var ops := Ops(init);
      forall id | id in ops && ops[id].space != space
        ensures forall p | p in ops[id].parents && p in ops :: ops[p].space != space
        ensures forall a | a in ops[id].authorization && a in ops :: ops[a].space != space
      {
        assert Ops(log)[id] == ops[id];
      }
      KeepIsLegal(init, space);
      if last.op.space == space {
        assert Keep(log, space) == Keep(init, space);
      } else {
        OpsKeep(init, space);
        assert Ops(log)[last.op.id] == last.op;
        forall r | r in ops ensures Ops(log)[r] == ops[r] { }
        LegalNextAfterDelete(ops, last.op, space);
        LegalAppend(Keep(init, space), last);
      }
    }
  }

  lemma LegalNextAfterDelete(ops: OpMap, op: Operation, space: SpaceId)
    requires LegalNext(ops, op) && op.space != space
    requires forall p | p in op.parents :: ops[p].space != space
    requires forall a | a in op.authorization :: ops[a].space != space
    ensures LegalNext(Remaining(ops, space), op)
  {
    if Projected(op) && op.parents != [] {
      var root :| RootFor(ops, op, root);
      assert RootFor(Remaining(ops, space), op, root);
    }
  }

  lemma {:induction false} KeepMembers(log: seq<Entry>, space: SpaceId, e: Entry)
    ensures e in Keep(log, space) <==> e in log && e.op.space != space
  {
    if log != [] {
      KeepMembers(log[..|log| - 1], space, e);
      assert log == log[..|log| - 1] + [log[|log| - 1]];
    }
  }

  ghost predicate Ascending(log: seq<Entry>) {
    forall i, j | 0 <= i < j < |log| :: log[i].sequence < log[j].sequence
  }

  lemma {:induction false} KeepAscends(log: seq<Entry>, space: SpaceId)
    requires Ascending(log)
    ensures Ascending(Keep(log, space))
  {
    if log != [] {
      var init, last := log[..|log| - 1], log[|log| - 1];
      KeepAscends(init, space);
      var kept := Keep(init, space);
      forall i | 0 <= i < |kept| ensures kept[i].sequence < last.sequence {
        KeepMembers(init, space, kept[i]);
        assert kept[i] in init;
        var k :| 0 <= k < |init| && init[k] == kept[i];
        assert log[k] == init[k];
      }
    }
  }

  lemma DeleteDetaches(g: Graph, space: SpaceId)
    requires Inv(g) && DeleteSpace(g, space).Ok?
    ensures Detached(Ops(g.log), space)
  {
    var ops, gone := Ops(g.log), SpaceIds(g.log, space);
    forall id | id in ops && ops[id].space != space
      ensures forall p | p in ops[id].parents && p in ops :: ops[p].space != space
      ensures forall a | a in ops[id].authorization && a in ops :: ops[a].space != space
    {
      forall p | p in ops[id].parents && p in ops ensures ops[p].space != space {
        var i :| 0 <= i < |ops[id].parents| && ops[id].parents[i] == p;
        assert Edge(id, p, i) in g.derived.parents;
      }
      forall a | a in ops[id].authorization && a in ops ensures ops[a].space != space {
        var i :| 0 <= i < |ops[id].authorization| && ops[id].authorization[i] == a;
        assert Edge(id, a, i) in g.derived.authorizations;
      }
    }
  }

  /** Deletion succeeds exactly when no remaining operation refers into the space. */
  lemma DeleteSucceedsExactly(g: Graph, space: SpaceId)
    requires Inv(g)
    ensures DeleteSpace(g, space).Ok? <==> Detached(Ops(g.log), space)
  {
    if DeleteSpace(g, space).Ok? { DeleteDetaches(g, space); }
    if Detached(Ops(g.log), space) {
      var gone := SpaceIds(g.log, space);
      forall e | e in g.derived.parents && e.child !in gone ensures e.target !in gone {
        assert Ops(g.log)[e.child].parents[e.position] == e.target;
      }
      forall e | e in g.derived.authorizations && e.child !in gone ensures e.target !in gone {
        assert Ops(g.log)[e.child].authorization[e.position] == e.target;
      }
    }
  }

  /** A remaining operation named only by deleted ones would be missing from the heads. */
  ghost predicate LeavesNoHiddenHead(ops: OpMap, space: SpaceId) {
    forall child, id | Names(ops, child, id) && ops[child].space == space && id in ops && ops[id].space != space ::
      exists other :: Names(ops, other, id) && ops[other].space != space
  }

  lemma DeleteKeepsEdges(ops: OpMap, d: Derived, next: Derived, space: SpaceId)
    requires EdgesMatch(ops, d)
    requires next.parents == set e | e in d.parents && ops[e.child].space != space
    requires next.authorizations == set e | e in d.authorizations && ops[e.child].space != space
    ensures EdgesMatch(Remaining(ops, space), next)
  {
  }

  lemma DeleteKeepsVisibility(ops: OpMap, d: Derived, next: Derived, space: SpaceId)
    requires VisibilityMatches(ops, d)
    requires next.visibility == map k | k in d.visibility && k.0 != space :: d.visibility[k]
    ensures VisibilityMatches(Remaining(ops, space), next)
  {
    var left := Remaining(ops, space);
    forall key | key in next.visibility
      ensures exists id :: id in left && IsVisibilityRoot(left[id]) && KeyOf(left[id]) == key
    {
      var id :| id in ops && IsVisibilityRoot(ops[id]) && KeyOf(ops[id]) == key;
      assert left[id] == ops[id];
    }
  }

  lemma DeleteKeepsProjections(ops: OpMap, d: Derived, next: Derived, space: SpaceId)
    requires ProjectionsMatch(ops, d)
    requires next.visibility == map k | k in d.visibility && k.0 != space :: d.visibility[k]
    requires next.projections == map id | id in d.projections && d.projections[id].space != space :: d.projections[id]
    ensures ProjectionsMatch(Remaining(ops, space), next)
  {
    forall id | id in d.projections ensures d.projections[id].space == ops[id].space { }
  }

  lemma DeletedEdges(g: Graph, space: SpaceId)
    requires EdgesMatch(Ops(g.log), g.derived) && DeleteSpace(g, space).Ok?
    ensures EdgesMatch(Remaining(Ops(g.log), space), DeleteSpace(g, space).value.derived)
  {
    var ops, d, next := Ops(g.log), g.derived, DeleteSpace(g, space).value.derived;
    assert next.parents == set e | e in d.parents && ops[e.child].space != space;
    assert next.authorizations == set e | e in d.authorizations && ops[e.child].space != space;
    DeleteKeepsEdges(ops, d, next, space);
  }

  lemma DeleteKeepsTables(g: Graph, space: SpaceId)
    requires TablesMatch(Ops(g.log), g.derived) && HeadRowsMatch(Ops(g.log), g.derived.heads) && DeleteSpace(g, space).Ok?
    ensures TablesMatch(Remaining(Ops(g.log), space), DeleteSpace(g, space).value.derived)
    ensures HeadRowsMatch(Remaining(Ops(g.log), space), DeleteSpace(g, space).value.derived.heads)
  {
    var next := DeleteSpace(g, space).value.derived;
    DeletedEdges(g, space);
    DeleteKeepsVisibility(Ops(g.log), g.derived, next, space);
    DeleteKeepsProjections(Ops(g.log), g.derived, next, space);
  }

  /** Deleting a space commutes with the fold over the log: every table but the heads stays exact, and the heads do
      exactly when no remaining operation was superseded only from inside the deleted space. */
  lemma DeleteKeepsInv(g: Graph, space: SpaceId)
    requires Inv(g) && DeleteSpace(g, space).Ok?
    ensures
      var next := DeleteSpace(g, space).value;
      && Inv(next) && Ops(next.log) == Remaining(Ops(g.log), space)
      && (HeadsExact(Ops(g.log), g.derived.heads) ==>
            (HeadsExact(Ops(next.log), next.derived.heads) <==> LeavesNoHiddenHead(Ops(g.log), space)))
  {
    DeleteDetaches(g, space);
    OpsKeep(g.log, space);
    KeepIsLegal(g.log, space);
    KeepAscends(g.log, space);
    forall e | e in Keep(g.log, space) ensures e in g.log { KeepMembers(g.log, space, e); }
    DeleteKeepsTables(g, space);
    if HeadsExact(Ops(g.log), g.derived.heads) {
      var next := DeleteSpace(g, space).value;
      DeletedHeads(Ops(g.log), g.derived.heads, next.derived.heads, space);
    }
  }

  lemma NamesAfterDelete(ops: OpMap, space: SpaceId, child: OperationId, id: OperationId)
    ensures Names(Remaining(ops, space), child, id) <==> Names(ops, child, id) && ops[child].space != space
  {
  }

  lemma OpenAfterDelete(ops: OpMap, space: SpaceId, id: OperationId)
    ensures id in ops && ops[id].space != space && Open(ops, id) ==> Open(Remaining(ops, space), id)
    ensures LeavesNoHiddenHead(ops, space) && Open(Remaining(ops, space), id) ==> Open(ops, id)
  {
    var left := Remaining(ops, space);
    forall child ensures Names(left, child, id) <==> Names(ops, child, id) && ops[child].space != space {
      NamesAfterDelete(ops, space, child, id);
    }
  }

  lemma HiddenHead(ops: OpMap, space: SpaceId, child: OperationId, id: OperationId)
    requires Names(ops, child, id) && id in ops && ops[id].space != space
    requires !Open(Remaining(ops, space), id)
    ensures exists other :: Names(ops, other, id) && ops[other].space != space
  {
    var left := Remaining(ops, space);
    var other :| other in left && Names(left, other, id);
    NamesAfterDelete(ops, space, other, id);
  }

  lemma DeletedHeads(ops: OpMap, heads: map<OperationId, HeadRow>, kept: map<OperationId, HeadRow>, space: SpaceId)
    requires HeadsExact(ops, heads) && HeadRowsMatch(Remaining(ops, space), kept)
    requires forall id :: id in kept <==> id in heads && heads[id].space != space
    ensures HeadsExact(Remaining(ops, space), kept) <==> LeavesNoHiddenHead(ops, space)
  {
    var left := Remaining(ops, space);
    if LeavesNoHiddenHead(ops, space) {
      forall id ensures id in kept <==> Open(left, id) { OpenAfterDelete(ops, space, id); }
    }
    if HeadsExact(left, kept) {
      forall child, id | Names(ops, child, id) && ops[child].space == space && id in ops && ops[id].space != space
        ensures exists other :: Names(ops, other, id) && ops[other].space != space
      {
        assert !Open(ops, id);
        assert id !in kept;
        HiddenHead(ops, space, child, id);
      }
    }
  }
}
