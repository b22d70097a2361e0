/** The shape of one entity's history: one root, one schema, one visibility, and between one and 64 heads. */
module EntityHistories {
  import opened Ordering
  import opened Operations
  import opened OperationGraph
  import opened GraphInvariants

  /** Causal parents stay inside the operation's own space; admission itself does not check this. */
  ghost predicate SpaceLocal(ops: OpMap) {
    forall id, p | id in ops && p in ops[id].parents && p in ops :: ops[p].space == ops[id].space
  }

  ghost function OpenOf(ops: OpMap, key: Key): set<OperationId> {
    set id | id in ops && KeyOf(ops[id]) == key && Open(ops, id)
  }

  ghost function OpenParents(ops: OpMap, op: Operation): set<OperationId> {
    set p | p in ParentSet(op) && Open(ops, p)
  }

  // ----- heads after one admission -----

  lemma ParentSetMembers(op: Operation, id: OperationId)
    ensures id in ParentSet(op) <==> id in op.parents
  {
    if id in op.parents {
      var i :| 0 <= i < |op.parents| && op.parents[i] == id;
    }
  }

  /** The new operation replaces exactly the heads it names; no other head changes. */
  lemma HeadsAfterAdmit(g: Graph, op: Operation, storedAt: int, local: bool, key: Key)
    requires op.id !in Ops(g.log) && HeadRowsMatch(Ops(g.log), g.derived.heads)
    requires Admit(g, op, storedAt, local).Ok?
    ensures HeadsOf(Admit(g, op, storedAt, local).value.derived.heads, key) ==
            HeadsOf(g.derived.heads, key) - ParentSet(op) + if key == KeyOf(op) then {op.id} else {}
  {
    DeriveHeads(g.derived, op);
    var heads, next := g.derived.heads, InsertGraph(g.derived, op).heads;
    forall id ensures id in HeadsOf(next, key) <==>
                      id in HeadsOf(heads, key) - ParentSet(op) + if key == KeyOf(op) then {op.id} else {} { }
  }

  /** Exactly when an admission leaves every other history of the graph with a head. */
  lemma AdmitKeepsOthersHeaded(g: Graph, op: Operation, storedAt: int, local: bool, key: Key)
    requires op.id !in Ops(g.log) && HeadRowsMatch(Ops(g.log), g.derived.heads)
    requires Admit(g, op, storedAt, local).Ok? && key != KeyOf(op)
    ensures HeadsOf(Admit(g, op, storedAt, local).value.derived.heads, key) != {} <==>
            !(HeadsOf(g.derived.heads, key) <= ParentSet(op))
  {
    HeadsAfterAdmit(g, op, storedAt, local, key);
    EmptyDifference(HeadsOf(g.derived.heads, key), ParentSet(op));
  }

  lemma EmptyDifference(s: set<OperationId>, t: set<OperationId>)
    ensures s - t == {} <==> s <= t
  {
    if s - t == {} {
      forall id | id in s ensures id in t { assert id !in s - t; }
    }
  }

  ghost function HeadsAmong(heads: map<OperationId, HeadRow>, parents: seq<OperationId>): set<OperationId> {
    set p | p in parents && p in heads
  }

  lemma {:induction false} CountHeadsIsCardinality(heads: map<OperationId, HeadRow>, parents: seq<OperationId>)
    requires forall i, j | 0 <= i < j < |parents| :: parents[i] != parents[j]
    ensures CountHeads(heads, parents) == |HeadsAmong(heads, parents)|
  {
    if parents == [] {
      assert HeadsAmong(heads, parents) == {};
    } else {
      var first, rest := parents[0], parents[1..];
      CountHeadsIsCardinality(heads, rest);
      assert parents == [first] + rest;
      assert first !in rest;
      if first in heads {
        assert HeadsAmong(heads, parents) == HeadsAmong(heads, rest) + {first};
      } else {
        assert HeadsAmong(heads, parents) == HeadsAmong(heads, rest);
      }
    }
  }

  lemma DistinctParents(op: Operation)
    requires Verified(op)
    ensures forall i, j | 0 <= i < j < |op.parents| :: op.parents[i] != op.parents[j]
  {
    forall i, j | 0 <= i < j < |op.parents| ensures op.parents[i] != op.parents[j] {
      if op.parents[i] == op.parents[j] { SortedDistinct(op.parents, i, j); }
    }
  }

  // ----- the head limit, as a property of the log -----

  ghost predicate WithinCap(ops: OpMap, op: Operation) {
    && |OpenOf(ops, KeyOf(op))| - |OpenParents(ops, op)| + 1 <= MAX_CAUSAL_PARENTS
    && (HistoryEmpty(ops, KeyOf(op)) || OpenOf(ops, KeyOf(op)) != {})
  }

  /** Every operation was within the head limit when it was appended. */
  ghost predicate CappedLog(log: seq<Entry>) {
    log == [] || (CappedLog(log[..|log| - 1]) && WithinCap(Ops(log[..|log| - 1]), log[|log| - 1].op))
  }

  lemma HeadsAreOpen(ops: OpMap, heads: map<OperationId, HeadRow>, key: Key)
    requires HeadsExact(ops, heads)
    ensures HeadsOf(heads, key) == OpenOf(ops, key)
  {
  }

  lemma ConsumedAreOpenParents(ops: OpMap, heads: map<OperationId, HeadRow>, op: Operation)
    requires HeadsExact(ops, heads) && Verified(op)
    ensures CountHeads(heads, op.parents) == |OpenParents(ops, op)|
  {
    DistinctParents(op);
    CountHeadsIsCardinality(heads, op.parents);
    forall p ensures p in ParentSet(op) <==> p in op.parents { ParentSetMembers(op, p); }
    assert HeadsAmong(heads, op.parents) == OpenParents(ops, op);
  }

  lemma ReferencesExact(log: seq<Entry>, op: Operation)
    ensures CheckReferences(log, op).Ok? <==>
            (forall p | p in op.parents :: p in Ops(log)) && (forall a | a in op.authorization :: a in Ops(log))
  {
    FirstMissingNone(log, op.parents);
    FirstMissingNone(log, op.authorization);
  }

  lemma TopologyExact(g: Graph, op: Operation)
    requires HeadsExact(Ops(g.log), g.derived.heads) && Verified(op)
    requires forall p | p in op.parents :: p in Ops(g.log)
    ensures CheckTopology(g, op).Ok? <==>
            && (forall p | p in op.parents :: Ops(g.log)[p].entity == op.entity && Ops(g.log)[p].schema == op.schema)
            && (op.parents == [] ==> HistoryEmpty(Ops(g.log), KeyOf(op)))
            && (op.body.Tombstone? ==> !HistoryEmpty(Ops(g.log), KeyOf(op)))
            && WithinCap(Ops(g.log), op)
  {
    HeadsAreOpen(Ops(g.log), g.derived.heads, KeyOf(op));
    ConsumedAreOpenParents(Ops(g.log), g.derived.heads, op);
    HistoryIsEmpty(g.log, KeyOf(op));
    FirstMismatchNone(g.log, op, op.parents);
    assert |OpenOf(Ops(g.log), KeyOf(op))| == 0 <==> OpenOf(Ops(g.log), KeyOf(op)) == {};
  }

  /** Admission checks, restated on the operations alone, in both directions. */
  lemma AdmissionIsExact(g: Graph, op: Operation, storedAt: int, local: bool)
    requires Inv(g) && HeadsExact(Ops(g.log), g.derived.heads) && Verified(op) && op.id !in Ops(g.log)
    ensures Admit(g, op, storedAt, local).Ok? <==> LegalNext(Ops(g.log), op) && WithinCap(Ops(g.log), op)
  {
    ReferencesExact(g.log, op);
    if CheckReferences(g.log, op).Ok? { TopologyExact(g, op); }
    if Admit(g, op, storedAt, local).Ok? { AdmittedIsLegal(g, op, storedAt, local); }
    if LegalNext(Ops(g.log), op) && WithinCap(Ops(g.log), op) {
      DeriveKeepsTables(g.log, g.derived, op);
      LegalHistory(g.log, op);
    }
  }

  lemma HistoryIsEmpty(log: seq<Entry>, key: Key)
    ensures HistoryEmpty(Ops(log), key) <==> History(log, key) == {}
    ensures |History(log, key)| == 0 <==> History(log, key) == {}
  {
    if History(log, key) == {} {
      forall id | id in Ops(log) ensures KeyOf(Ops(log)[id]) != key { assert id !in History(log, key); }
    }
  }

  lemma LegalHistory(log: seq<Entry>, op: Operation)
    requires LegalNext(Ops(log), op)
    ensures op.body.Tombstone? ==> !HistoryEmpty(Ops(log), KeyOf(op))
  {
    if op.body.Tombstone? {
      var root :| RootFor(Ops(log), op, root);
    }
  }

  lemma AdmitKeepsCap(g: Graph, op: Operation, storedAt: int, local: bool)
    requires Inv(g) && HeadsExact(Ops(g.log), g.derived.heads) && Verified(op) && op.id !in Ops(g.log)
    requires CappedLog(g.log) && Admit(g, op, storedAt, local).Ok?
    ensures CappedLog(Admit(g, op, storedAt, local).value.log)
  {
    AdmittedWithinCap(g, op, storedAt, local);
    CappedAppend(g.log, Entry(g.lastSequence + 1, op, storedAt, local));
    AdmitAppends(g, op, storedAt, local);
  }

  lemma AdmittedWithinCap(g: Graph, op: Operation, storedAt: int, local: bool)
    requires Inv(g) && HeadsExact(Ops(g.log), g.derived.heads) && Verified(op) && op.id !in Ops(g.log)
    requires Admit(g, op, storedAt, local).Ok?
    ensures WithinCap(Ops(g.log), op)
  {
    AdmissionIsExact(g, op, storedAt, local);
  }

  lemma CappedAppend(log: seq<Entry>, e: Entry)
    requires CappedLog(log) && WithinCap(Ops(log), e.op)
    ensures CappedLog(log + [e])
  {
    assert (log + [e])[..|log|] == log;
  }

  // ----- shape of a history, under space-local parents -----

  lemma SpaceLocalPrefix(log: seq<Entry>)
    requires log != [] && LegalLog(log) && SpaceLocal(Ops(log))
    ensures
      var init, op := log[..|log| - 1], log[|log| - 1].op;
      SpaceLocal(Ops(init)) && forall p | p in op.parents :: KeyOf(Ops(init)[p]) == KeyOf(op)
  {
    var init, op := log[..|log| - 1], log[|log| - 1].op;
    forall id | id in Ops(init) ensures Ops(log)[id] == Ops(init)[id] { }
    forall p | p in op.parents ensures KeyOf(Ops(init)[p]) == KeyOf(op) {
      assert Ops(log)[p] == Ops(init)[p] && Ops(log)[op.id] == op;
    }
  }

  /** Root of the history: the one operation without parents; everything agrees with it. */
  ghost predicate IsRootOf(ops: OpMap, key: Key, root: OperationId) {
    && root in ops && KeyOf(ops[root]) == key && ops[root].parents == []
    && (forall id | id in ops && KeyOf(ops[id]) == key ::
          && (ops[id].parents == [] ==> id == root)
          && ops[id].schema == ops[root].schema
          && (DeclaredVisibility(ops[id].body).Some? ==>
                DeclaredVisibility(ops[id].body) == DeclaredVisibility(ops[root].body)))
  }

  lemma VerifiedPutIsProjected(op: Operation)
    requires Verified(op) && DeclaredVisibility(op.body).Some?
    ensures Projected(op)
  {
  }

  lemma {:induction false} OneRootOneSchemaOneVisibility(log: seq<Entry>, key: Key) returns (root: OperationId)
    requires LegalLog(log) && SpaceLocal(Ops(log)) && !HistoryEmpty(Ops(log), key)
    ensures IsRootOf(Ops(log), key, root)
    decreases |log|
  {
    var init, op := log[..|log| - 1], log[|log| - 1].op;
    var ops, before := Ops(log), Ops(init);
    SpaceLocalPrefix(log);
    forall id | id in before ensures ops[id] == before[id] { }
    if KeyOf(op) == key && op.parents == [] {
      root := op.id;
    } else {
      if KeyOf(op) == key {
        assert op.parents[0] in op.parents;
        assert KeyOf(before[op.parents[0]]) == key;
      } else {
        var id :| id in ops && KeyOf(ops[id]) == key;
        assert id in before;
      }
      root := OneRootOneSchemaOneVisibility(init, key);
      if KeyOf(op) == key {
        var p := op.parents[0];
        assert p in op.parents && before[p].schema == op.schema;
        if DeclaredVisibility(op.body).Some? {
          VerifiedPutIsProjected(op);
          var r :| RootFor(before, op, r);
          assert r == root;
        }
      }
    }
  }

  // ----- what holds of histories with any parents -----

  /** In every legal log an entity has at most one operation without parents. */
  lemma {:induction false} RootIsUnique(log: seq<Entry>, one: OperationId, two: OperationId)
    requires LegalLog(log) && one in Ops(log) && two in Ops(log) && KeyOf(Ops(log)[one]) == KeyOf(Ops(log)[two])
    requires Ops(log)[one].parents == [] && Ops(log)[two].parents == []
    ensures one == two
    decreases |log|
  {
    var init, op := log[..|log| - 1], log[|log| - 1].op;
    if one != op.id && two != op.id {
      RootIsUnique(init, one, two);
    } else {
      assert HistoryEmpty(Ops(init), KeyOf(op));
    }
  }

  /** The one operation without parents of a history; every declared visibility is the one it declared. */
  ghost predicate IsClientRootOf(ops: OpMap, key: Key, root: OperationId) {
    && root in ops && KeyOf(ops[root]) == key && IsVisibilityRoot(ops[root])
    && (forall id | id in ops && KeyOf(ops[id]) == key ::
          && (ops[id].parents == [] ==> id == root)
          && (DeclaredVisibility(ops[id].body).Some? ==>
                DeclaredVisibility(ops[id].body) == DeclaredVisibility(ops[root].body)))
  }

  /** The visibility root a projected operation was admitted under. */
  lemma {:induction false} ProjectedHasRoot(log: seq<Entry>, id: OperationId) returns (root: OperationId)
    requires LegalLog(log) && id in Ops(log) && Projected(Ops(log)[id])
    ensures RootFor(Ops(log), Ops(log)[id], root)
    decreases |log|
  {
    var init, op := log[..|log| - 1], log[|log| - 1].op;
    if id == op.id && op.parents == [] {
      root := id;
    } else if id == op.id {
      root :| RootFor(Ops(init), op, root);
    } else {
      root := ProjectedHasRoot(init, id);
    }
  }

  /** Every history with a client operation has exactly one root and one visibility, whatever its parents. */
  lemma OneRootOneVisibility(log: seq<Entry>, id: OperationId) returns (root: OperationId)
    requires LegalLog(log) && id in Ops(log) && Projected(Ops(log)[id])
    ensures IsClientRootOf(Ops(log), KeyOf(Ops(log)[id]), root)
  {
    root := ProjectedHasRoot(log, id);
    var ops, key := Ops(log), KeyOf(Ops(log)[id]);
    forall other | other in ops && KeyOf(ops[other]) == key
      ensures ops[other].parents == [] ==> other == root
      ensures DeclaredVisibility(ops[other].body).Some? ==>
                DeclaredVisibility(ops[other].body) == DeclaredVisibility(ops[root].body)
    {
      if ops[other].parents == [] { RootIsUnique(log, other, root); }
      if DeclaredVisibility(ops[other].body).Some? {
        LegalIds(log, other);
        VerifiedPutIsProjected(ops[other]);
        var r := ProjectedHasRoot(log, other);
        RootIsUnique(log, r, root);
      }
    }
  }

  ghost predicate HasRoot(ops: OpMap, key: Key) { exists id :: id in ops && KeyOf(ops[id]) == key && ops[id].parents == [] }

  /** Exactly when an admission leaves its history with a root. */
  lemma AdmitKeepsRooted(g: Graph, op: Operation, storedAt: int, local: bool)
    requires op.id !in Ops(g.log) && Admit(g, op, storedAt, local).Ok?
    ensures HasRoot(Ops(Admit(g, op, storedAt, local).value.log), KeyOf(op)) <==> op.parents == [] || HasRoot(Ops(g.log), KeyOf(op))
  {
    AdmitAppends(g, op, storedAt, local);
    OpsAppend(g.log, Entry(g.lastSequence + 1, op, storedAt, local));
    var ops, next := Ops(g.log), Ops(Admit(g, op, storedAt, local).value.log);
    assert next[op.id] == op;
    if HasRoot(ops, KeyOf(op)) {
      var id :| id in ops && KeyOf(ops[id]) == KeyOf(op) && ops[id].parents == [];
      assert next[id] == ops[id];
    }
  }

  /** Exactly when an admission leaves its history with a single schema. */
  lemma AdmitKeepsSingleSchema(g: Graph, op: Operation, storedAt: int, local: bool, key: Key)
    requires op.id !in Ops(g.log) && Admit(g, op, storedAt, local).Ok?
    ensures
      var next := SchemasOf(Admit(g, op, storedAt, local).value.log, key);
      && next == SchemasOf(g.log, key) + (if key == KeyOf(op) then {op.schema} else {})
      && (key == KeyOf(op) ==> (|next| == 1 <==> SchemasOf(g.log, key) <= {op.schema}))
  {
    AdmitAppends(g, op, storedAt, local);
    var e := Entry(g.lastSequence + 1, op, storedAt, local);
    OpsAppend(g.log, e);
    SchemasAfter(g.log, e, key);
    if key == KeyOf(op) { SingleElement(SchemasOf(g.log, key), op.schema); }
  }

  lemma SchemasAfter(log: seq<Entry>, e: Entry, key: Key)
    requires e.op.id !in Ops(log) && Ops(log + [e]) == Ops(log)[e.op.id := e.op]
    ensures SchemasOf(log + [e], key) == SchemasOf(log, key) + (if key == KeyOf(e.op) then {e.op.schema} else {})
  {
    forall schema ensures schema in SchemasOf(log + [e], key) <==>
                          schema in SchemasOf(log, key) || (key == KeyOf(e.op) && schema == e.op.schema)
    {
      if schema in SchemasOf(log, key) {
        var id :| id in History(log, key) && Ops(log)[id].schema == schema;
        assert id in History(log + [e], key) && Ops(log + [e])[id].schema == schema;
      }
      if key == KeyOf(e.op) { assert e.op.id in History(log + [e], key); }
      if schema in SchemasOf(log + [e], key) {
        var id :| id in History(log + [e], key) && Ops(log + [e])[id].schema == schema;
        assert id == e.op.id || id in History(log, key);
      }
    }
  }

  lemma SingleElement(s: set<Schema>, x: Schema)
    ensures |s + {x}| == 1 <==> s <= {x}
  {
    if s <= {x} {
      assert s + {x} == {x};
    } else {
      var y :| y in s && y != x;
      assert {x, y} <= s + {x} && |{x, y}| == 2;
      SubsetCardinality({x, y}, s + {x});
    }
  }

  lemma SubsetCardinality(s: set<Schema>, t: set<Schema>)
    requires s <= t
    ensures |s| <= |t|
  {
    assert t == s + (t - s) && |s + (t - s)| == |s| + |t - s|;
  }

  /** Exactly when an admission leaves its own history within the head cap; every other history only loses heads. */
  lemma AdmitKeepsHeadCap(g: Graph, op: Operation, storedAt: int, local: bool, key: Key)
    requires op.id !in Ops(g.log) && HeadRowsMatch(Ops(g.log), g.derived.heads) && Admit(g, op, storedAt, local).Ok?
    ensures
      var next := HeadsOf(Admit(g, op, storedAt, local).value.derived.heads, key);
      if key == KeyOf(op) then
        |next| <= MAX_CAUSAL_PARENTS <==> |HeadsOf(g.derived.heads, key) - ParentSet(op)| < MAX_CAUSAL_PARENTS
      else next <= HeadsOf(g.derived.heads, key)
  {
    HeadsAfterAdmit(g, op, storedAt, local, key);
    assert op.id !in HeadsOf(g.derived.heads, key);
  }

  lemma OpenStep(ops: OpMap, op: Operation, key: Key)
    requires op.id !in ops && op.id !in op.parents
    requires forall child | child in ops :: !Names(ops, child, op.id)
    requires forall p | p in op.parents :: p in ops && KeyOf(ops[p]) == KeyOf(op)
    ensures OpenOf(ops[op.id := op], key) ==
            if key == KeyOf(op) then OpenOf(ops, key) - OpenParents(ops, op) + {op.id} else OpenOf(ops, key)
    ensures OpenParents(ops, op) <= OpenOf(ops, KeyOf(op))
  {
    var later := ops[op.id := op];
    forall p ensures p in ParentSet(op) <==> p in op.parents { ParentSetMembers(op, p); }
    forall id | id in ops ensures Open(later, id) <==> Open(ops, id) && id !in op.parents {
      forall child | child in ops ensures Names(later, child, id) <==> Names(ops, child, id) { }
      assert Names(later, op.id, id) <==> id in op.parents;
      if Open(later, id) {
        forall child | child in ops ensures !Names(ops, child, id) { assert child in later; }
      }
    }
    assert Open(later, op.id);
  }

  lemma CapAfterStep(ops: OpMap, op: Operation)
    requires op.id !in ops && op.id !in op.parents && WithinCap(ops, op)
    requires forall child | child in ops :: !Names(ops, child, op.id)
    requires forall p | p in op.parents :: p in ops && KeyOf(ops[p]) == KeyOf(op)
    ensures |OpenOf(ops[op.id := op], KeyOf(op))| <= MAX_CAUSAL_PARENTS && OpenOf(ops[op.id := op], KeyOf(op)) != {}
  {
    OpenStep(ops, op, KeyOf(op));
    var open, consumed := OpenOf(ops, KeyOf(op)), OpenParents(ops, op);
    assert |open - consumed| == |open| - |consumed|;
    assert op.id in OpenOf(ops[op.id := op], KeyOf(op));
  }

  lemma HistoryBefore(ops: OpMap, op: Operation, key: Key)
    requires key != KeyOf(op) && op.id !in ops && !HistoryEmpty(ops[op.id := op], key)
    ensures !HistoryEmpty(ops, key)
  {
    var id :| id in ops[op.id := op] && KeyOf(ops[op.id := op][id]) == key;
    assert id in ops && KeyOf(ops[id]) == key;
  }

  /** Every nonempty history keeps between one and MAX_CAUSAL_PARENTS heads. */
  lemma {:induction false} HeadCountBounded(log: seq<Entry>, key: Key)
    requires LegalLog(log) && SpaceLocal(Ops(log)) && CappedLog(log)
    ensures |OpenOf(Ops(log), key)| <= MAX_CAUSAL_PARENTS
    ensures HistoryEmpty(Ops(log), key) || OpenOf(Ops(log), key) != {}
    decreases |log|
  {
    if log == [] {
      assert OpenOf(Ops(log), key) == {};
    } else {
      var init, op := log[..|log| - 1], log[|log| - 1].op;
      SpaceLocalPrefix(log);
      FreshIsUnnamed(init, op.id);
      if key == KeyOf(op) {
        CapAfterStep(Ops(init), op);
      } else {
        HeadCountBounded(init, key);
        OpenStep(Ops(init), op, key);
        if !HistoryEmpty(Ops(log), key) { HistoryBefore(Ops(init), op, key); }
      }
    }
  }

  /** Parents and authorizations were stored before the operations that name them. */
  lemma {:induction false} ReferencesComeEarlier(g: Graph, k: nat, r: OperationId) returns (i: nat)
    requires Inv(g) && k < |g.log|
    requires r in g.log[k].op.parents || r in g.log[k].op.authorization
    ensures i < k && g.log[i].op.id == r && g.log[i].sequence < g.log[k].sequence
  {
    var prefix := g.log[..k + 1];
    LegalPrefix(g.log, k + 1);
    assert prefix[..|prefix| - 1] == g.log[..k] && prefix[|prefix| - 1] == g.log[k];
    i := IndexOf(g.log[..k], r);
  }

  lemma {:induction false} LegalPrefix(log: seq<Entry>, n: nat)
    requires LegalLog(log) && n <= |log|
    ensures LegalLog(log[..n])
    decreases |log|
  {
    if n < |log| {
      LegalPrefix(log[..|log| - 1], n);
      assert log[..|log| - 1][..n] == log[..n];
    } else {
      assert log[..n] == log;
    }
  }

  lemma {:induction false} IndexOf(log: seq<Entry>, id: OperationId) returns (i: nat)
    requires id in Ops(log)
    ensures i < |log| && log[i].op.id == id && log[i].op == Ops(log)[id]
    decreases |log|
  {
    if log[|log| - 1].op.id == id {
      i := |log| - 1;
    } else {
      i := IndexOf(log[..|log| - 1], id);
    }
  }

  // ----- an appended operation always found a head -----

  ghost predicate Headed(ops: OpMap, key: Key) { HistoryEmpty(ops, key) || OpenOf(ops, key) != {} }

  /** Every operation found its history empty or with an open operation when it was appended. */
  ghost predicate HeadedLog(log: seq<Entry>) {
    log == [] || (HeadedLog(log[..|log| - 1]) && Headed(Ops(log[..|log| - 1]), KeyOf(log[|log| - 1].op)))
  }

  ghost predicate HeadsOpen(ops: OpMap, heads: map<OperationId, HeadRow>) { forall id | id in heads :: Open(ops, id) }

  lemma InsertKeepsOpen(ops: OpMap, d: Derived, op: Operation)
    requires HeadsOpen(ops, d.heads) && op.id !in ops && op.id !in op.parents
    requires forall child | child in ops :: !Names(ops, child, op.id)
    ensures HeadsOpen(ops[op.id := op], InsertGraph(d, op).heads)
  {
    var later := ops[op.id := op];
    forall id | id in InsertGraph(d, op).heads ensures Open(later, id) {
      ParentSetMembers(op, id);
      assert forall child | child in ops :: Names(later, child, id) <==> Names(ops, child, id);
    }
  }

  lemma AdmittedIsHeaded(g: Graph, op: Operation, storedAt: int, local: bool)
    requires HeadRowsMatch(Ops(g.log), g.derived.heads) && HeadsOpen(Ops(g.log), g.derived.heads)
    requires Admit(g, op, storedAt, local).Ok?
    ensures Headed(Ops(g.log), KeyOf(op))
  {
    HistoryIsEmpty(g.log, KeyOf(op));
    var heads := HeadsOf(g.derived.heads, KeyOf(op));
    if heads != {} {
      var id :| id in heads;
      assert id in OpenOf(Ops(g.log), KeyOf(op));
    }
  }

  lemma HeadedAppend(log: seq<Entry>, e: Entry)
    requires HeadedLog(log) && Headed(Ops(log), KeyOf(e.op))
    ensures HeadedLog(log + [e])
  {
    assert (log + [e])[..|log|] == log;
  }

  lemma AdmitKeepsHeaded(g: Graph, op: Operation, storedAt: int, local: bool)
    requires Inv(g) && Verified(op) && op.id !in Ops(g.log) && Admit(g, op, storedAt, local).Ok?
    requires HeadedLog(g.log) && HeadsOpen(Ops(g.log), g.derived.heads)
    ensures
      var next := Admit(g, op, storedAt, local).value;
      HeadedLog(next.log) && HeadsOpen(Ops(next.log), next.derived.heads)
  {
    var e := Entry(g.lastSequence + 1, op, storedAt, local);
    AdmittedIsHeaded(g, op, storedAt, local);
    HeadedAppend(g.log, e);
    AdmitAppends(g, op, storedAt, local);
    AdmitKeepsInv(g, op, storedAt, local);
    AdmittedIsLegal(g, op, storedAt, local);
    FreshIsUnnamed(g.log, op.id);
    DeriveHeads(g.derived, op);
    InsertKeepsOpen(Ops(g.log), g.derived, op);
  }

  /** Deleting another space only opens operations of a history. */
  lemma HeadedAfterDelete(ops: OpMap, key: Key, space: SpaceId)
    requires Headed(ops, key) && key.0 != space
    ensures Headed(Remaining(ops, space), key)
  {
    if OpenOf(ops, key) != {} {
      var id :| id in OpenOf(ops, key);
      OpenAfterDelete(ops, space, id);
      assert id in OpenOf(Remaining(ops, space), key);
    }
  }

  lemma {:induction false} KeepIsHeaded(log: seq<Entry>, space: SpaceId)
    requires LegalLog(log) && HeadedLog(log)
    ensures HeadedLog(Keep(log, space))
    decreases |log|
  {
    if log != [] {
      var init, last := log[..|log| - 1], log[|log| - 1];
      KeepIsHeaded(init, space);
      OpsKeep(init, space);
      if last.op.space == space {
        assert Keep(log, space) == Keep(init, space);
      } else {
        HeadedAfterDelete(Ops(init), KeyOf(last.op), space);
        HeadedAppend(Keep(init, space), last);
        assert Keep(log, space) == Keep(init, space) + [last];
      }
    }
  }

  lemma DeleteKeepsHeaded(g: Graph, space: SpaceId)
    requires Inv(g) && DeleteSpace(g, space).Ok? && HeadedLog(g.log) && HeadsOpen(Ops(g.log), g.derived.heads)
    ensures
      var next := DeleteSpace(g, space).value;
      HeadedLog(next.log) && HeadsOpen(Ops(next.log), next.derived.heads)
  {
    KeepIsHeaded(g.log, space);
    OpsKeep(g.log, space);
    forall id | id in DeleteSpace(g, space).value.derived.heads ensures Open(Remaining(Ops(g.log), space), id) {
      OpenAfterDelete(Ops(g.log), space, id);
    }
  }

  lemma {:induction false} HeadedAt(log: seq<Entry>, n: nat)
    requires HeadedLog(log) && n < |log|
    ensures Headed(Ops(log[..n]), KeyOf(log[n].op))
    decreases |log|
  {
    var init := log[..|log| - 1];
    if n < |init| {
      HeadedAt(init, n);
      assert init[..n] == log[..n] && init[n] == log[n];
    }
  }

  // ----- deletion keeps the cap -----

  lemma {:induction false} KeepIsCapped(log: seq<Entry>, space: SpaceId)
    requires LegalLog(log) && SpaceLocal(Ops(log)) && CappedLog(log)
    ensures CappedLog(Keep(log, space))
    decreases |log|
  {
    if log != [] {
      var init, last := log[..|log| - 1], log[|log| - 1];
      SpaceLocalPrefix(log);
      KeepIsCapped(init, space);
      OpsKeep(init, space);
      if last.op.space == space {
        assert Keep(log, space) == Keep(init, space);
      } else {
        var kept := Keep(init, space);
        assert Keep(log, space)[..|kept|] == kept;
        CapAfterDelete(Ops(init), last.op, space);
      }
    }
  }

  lemma CapAfterDelete(ops: OpMap, op: Operation, space: SpaceId)
    requires SpaceLocal(ops) && WithinCap(ops, op) && op.space != space
    requires forall p | p in op.parents :: p in ops && KeyOf(ops[p]) == KeyOf(op)
    ensures WithinCap(Remaining(ops, space), op)
  {
    var left := Remaining(ops, space);
    forall p ensures p in ParentSet(op) <==> p in op.parents { ParentSetMembers(op, p); }
    SpaceLocalLeavesNoHiddenHead(ops, space);
    forall id | id in left ensures Open(left, id) <==> Open(ops, id) { OpenAfterDelete(ops, space, id); }
    assert OpenOf(left, KeyOf(op)) == OpenOf(ops, KeyOf(op));
    assert OpenParents(left, op) == OpenParents(ops, op);
    if !HistoryEmpty(left, KeyOf(op)) {
      var id :| id in left && KeyOf(left[id]) == KeyOf(op);
      assert id in ops;
    }
  }

  lemma SpaceLocalLeavesNoHiddenHead(ops: OpMap, space: SpaceId)
    requires SpaceLocal(ops)
    ensures LeavesNoHiddenHead(ops, space)
  {
  }
}
