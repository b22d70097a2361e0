/** Observing an entity, authoring an edit from exactly its heads, and committing it. */
module Authoring {
  import opened Wrappers
  import opened Ordering
  import opened Operations
  import opened OperationGraph
  import opened GraphInvariants
  import opened EntityHistories
  import opened Outbox
  import opened ClientDatabase
  import opened StoreRuns
  import opened DeliveryRuns
  import Store = ClientStore

  const NIL_SPACE: SpaceId := 0

  datatype ClientError =
    | InvalidSpaceId
    | MissingAuthorizations
    | TooManyAuthorizationReferences
    | InvalidObservedEntity
    | TooManyCausalHeads
    | ObservedSpaceMismatch
    | ObservedSchemaMismatch
    | NilEntityId
    | ClockBeforeUnixEpoch
    | UnverifiedOperation
    | SignerProjectionMismatch

  datatype RuntimeError =
    | OfClient(clientError: ClientError)
    | OfStore(storeError: StoreError)
    | EntityNotFound(missing: EntityId)
    | SchemaMismatch
    | PairingImportCollision(entity: EntityId)

  // ----- sort and dedup -----

  function InsertSorted(s: seq<nat>, x: nat): seq<nat> {
    if s == [] then [x]
    else if x < s[0] then [x] + s
    else if x == s[0] then s
    else [s[0]] + InsertSorted(s[1..], x)
  }

  /** Sorts and drops duplicates. */
  function SortDedup(ids: seq<nat>): seq<nat> {
    if ids == [] then [] else InsertSorted(SortDedup(ids[1..]), ids[0])
  }

  lemma TailIsSorted(s: seq<nat>)
    requires StrictlySorted(s, NatLess) && s != []
    ensures StrictlySorted(s[1..], NatLess)
  {
    var rest := s[1..];
    forall i | 0 <= i < |rest| - 1 ensures NatLess(rest[i], rest[i + 1]) { assert NatLess(s[i + 1], s[i + 1 + 1]); }
  }

  lemma {:induction false} InsertKeepsSorted(s: seq<nat>, x: nat)
    requires StrictlySorted(s, NatLess)
    ensures StrictlySorted(InsertSorted(s, x), NatLess)
    ensures forall v :: v in InsertSorted(s, x) <==> v == x || v in s
    ensures InsertSorted(s, x)[0] == if s == [] || x < s[0] then x else s[0]
  {
    if s != [] && s[0] < x {
      TailIsSorted(s);
      InsertKeepsSorted(s[1..], x);
      assert s == [s[0]] + s[1..];
    }
  }

  lemma {:induction false} SortDedupIsSorted(ids: seq<nat>)
    ensures StrictlySorted(SortDedup(ids), NatLess)
    ensures forall v :: v in SortDedup(ids) <==> v in ids
  {
    if ids != [] {
      SortDedupIsSorted(ids[1..]);
      InsertKeepsSorted(SortDedup(ids[1..]), ids[0]);
      assert ids == [ids[0]] + ids[1..];
    }
  }

  lemma {:induction false} SortedSetIsUnique(s: seq<nat>, t: seq<nat>)
    requires StrictlySorted(s, NatLess) && StrictlySorted(t, NatLess)
    requires forall v :: v in s <==> v in t
    ensures s == t
    decreases |s|
  {
    if s == [] {
      assert forall i | 0 <= i < |t| :: t[i] in t;
    } else {
      assert s[0] in s;
      SameHeadAndTail(s, t);
      TailIsSorted(s);
      TailIsSorted(t);
      SortedSetIsUnique(s[1..], t[1..]);
      assert s == [s[0]] + s[1..] && t == [t[0]] + t[1..];
    }
  }

  lemma SameHeadAndTail(s: seq<nat>, t: seq<nat>)
    requires StrictlySorted(s, NatLess) && StrictlySorted(t, NatLess) && s != [] && t != []
    requires forall v :: v in s <==> v in t
    ensures s[0] == t[0] && forall v :: v in s[1..] <==> v in t[1..]
  {
    assert s[0] in s && t[0] in t;
    SortedHead(s, t[0]);
    SortedHead(t, s[0]);
    forall v ensures v in s[1..] <==> v in t[1..] { SortedTail(s, v); SortedTail(t, v); }
  }

  lemma SortedHead(s: seq<nat>, v: nat)
    requires StrictlySorted(s, NatLess) && v in s
    ensures s[0] <= v
  {
    var i :| 0 <= i < |s| && s[i] == v;
    assert StrictTotalOrder(NatLess);
    if i > 0 { SortedPairs(s, NatLess, 0, i); }
  }

  lemma SortedTail(s: seq<nat>, v: nat)
    requires StrictlySorted(s, NatLess) && s != []
    ensures v in s[1..] <==> v in s && v != s[0]
  {
    if v in s[1..] {
      var i :| 0 <= i < |s[1..]| && s[1..][i] == v;
      assert StrictTotalOrder(NatLess);
      SortedPairs(s, NatLess, 0, i + 1);
    }
    assert s == [s[0]] + s[1..];
  }

  /** The canonical form depends only on which ids were given, not on their order or repetition. */
  lemma SortDedupIsCanonical(ids: seq<nat>, others: seq<nat>)
    requires forall v :: v in ids <==> v in others
    ensures SortDedup(ids) == SortDedup(others)
  {
    SortDedupIsSorted(ids);
    SortDedupIsSorted(others);
    SortedSetIsUnique(SortDedup(ids), SortDedup(others));
  }

  lemma {:induction false} SortedLength(s: seq<nat>, all: set<nat>)
    requires StrictlySorted(s, NatLess) && forall v :: v in s <==> v in all
    ensures |s| == |all|
    decreases |s|
  {
    if s == [] {
      assert all == {};
    } else {
      assert s[0] in s;
      forall v ensures v in s[1..] <==> v in all - {s[0]} { SortedTail(s, v); }
      TailIsSorted(s);
      SortedLength(s[1..], all - {s[0]});
    }
  }

  // ----- contexts and observations -----

  datatype AuthoringContext = AuthoringContext(space: SpaceId, authorization: seq<OperationId>)

  function NewContext(space: SpaceId, authorization: seq<OperationId>): Result<AuthoringContext, ClientError> {
    var sorted := SortDedup(authorization);
    if space == NIL_SPACE then Err(InvalidSpaceId)
    else if sorted == [] then Err(MissingAuthorizations)
    else if |sorted| > MAX_AUTHORIZATION_REFERENCES then Err(TooManyAuthorizationReferences)
    else Ok(AuthoringContext(space, sorted))
  }

  ghost function IdSet(ids: seq<nat>): set<nat> { set v | v in ids }

  /** A context is accepted exactly for a real space and one to 64 distinct authorizations, which it holds sorted. */
  lemma ContextIsCanonical(space: SpaceId, authorization: seq<OperationId>)
    ensures NewContext(space, authorization).Ok? <==>
            space != NIL_SPACE && authorization != [] && |IdSet(authorization)| <= MAX_AUTHORIZATION_REFERENCES
    ensures NewContext(space, authorization).Ok? ==>
              var context := NewContext(space, authorization).value;
              && context.space == space && StrictlySorted(context.authorization, NatLess)
              && IdSet(context.authorization) == IdSet(authorization)
  {
    var sorted := SortDedup(authorization);
    SortDedupIsSorted(authorization);
    SortedLength(sorted, IdSet(authorization));
    assert forall i | 0 <= i < |authorization| :: authorization[i] in sorted;
    assert forall i | 0 <= i < |sorted| :: sorted[i] in authorization;
  }

  datatype ObservedEntity = ObservedEntity(space: SpaceId, entity: EntityId, schema: Schema, heads: seq<OperationId>)

  function NewObserved(space: SpaceId, entity: EntityId, schema: Schema, heads: seq<OperationId>)
    : Result<ObservedEntity, ClientError>
  {
    var sorted := SortDedup(heads);
    if space == NIL_SPACE then Err(InvalidSpaceId)
    else if entity == NIL_ENTITY then Err(InvalidObservedEntity)
    else if !IsClientSchema(schema) then Err(InvalidObservedEntity)
    else if sorted == [] then Err(InvalidObservedEntity)
    else if |sorted| > MAX_CAUSAL_PARENTS then Err(TooManyCausalHeads)
    else Ok(ObservedEntity(space, entity, schema, sorted))
  }

  datatype LocalEntity = LocalEntity(schema: Schema, operationCount: nat, heads: seq<OperationId>)

  /** The first schema in wire-name order. */
  function FirstSchema(schemas: set<Schema>): Schema {
    if CapabilityGrant in schemas then CapabilityGrant
    else if CapabilityRevoke in schemas then CapabilityRevoke
    else if Event in schemas then Event
    else if Profile in schemas then Profile
    else if Record in schemas then Record
    else if SpaceGenesis in schemas then SpaceGenesis
    else Tag
  }

  /** Stored operations among the given ids, in log order. */
  function ListIds(log: seq<Entry>, ids: set<OperationId>): seq<OperationId> {
    if log == [] then []
    else
      var last := log[|log| - 1].op.id;
      ListIds(log[..|log| - 1], ids) + if last in ids then [last] else []
  }

  function SortedHeads(g: Graph, key: Key): seq<OperationId> { SortDedup(ListIds(g.log, HeadsOf(g.derived.heads, key))) }

  /** Reads an entity: absent, or one schema and at least one head; heads come in identifier order. */
  function Entity(g: Graph, key: Key): Result<Option<LocalEntity>, StoreError> {
    var schemas, heads := SchemasOf(g.log, key), SortedHeads(g, key);
    if History(g.log, key) == {} then Ok(None)
    else if |schemas| != 1 || heads == [] then Err(Corrupt)
    else Ok(Some(LocalEntity(FirstSchema(schemas), |History(g.log, key)|, heads)))
  }

  function Observe(g: Graph, space: SpaceId, entity: EntityId, schema: Schema): Result<Option<ObservedEntity>, RuntimeError> {
    match Entity(g, (space, entity))
    case Err(e) => Err(OfStore(e))
    case Ok(None) => Ok(None)
    case Ok(Some(found)) =>
      if found.schema != schema then Err(SchemaMismatch)
      else
        match NewObserved(space, entity, schema, found.heads)
        case Err(e) => Err(OfClient(e))
        case Ok(observed) => Ok(Some(observed))
  }

  // ----- authoring -----

  datatype Draft = Draft(
    space: SpaceId,
    entity: EntityId,
    schema: Schema,
    parents: seq<OperationId>,
    authorization: seq<OperationId>,
    occurredAt: int,
    nonce: nat,
    body: Body)

  /** Key custody, clock and nonce source are the environment; `n` counts the drafts made so far. */
  datatype Author = Author(
    context: AuthoringContext,
    actor: ActorId,
    profileEntity: EntityId,
    sign: Draft -> Operation,
    clock: nat -> int,
    nonces: nat -> nat)

  predicate ProjectionMatches(op: Operation, draft: Draft, actor: ActorId) {
    && op.space == draft.space && op.entity == draft.entity && op.schema == draft.schema && op.actor == actor
    && op.parents == draft.parents && op.authorization == draft.authorization
    && op.occurredAt == draft.occurredAt && op.nonce == draft.nonce && op.body == draft.body
  }

  function DraftOf(a: Author, n: nat, entity: EntityId, schema: Schema, parents: seq<OperationId>, body: Body): Draft {
    Draft(a.context.space, entity, schema, parents, a.context.authorization, a.clock(n), a.nonces(n), body)
  }

  function AuthorOperation(a: Author, n: nat, entity: EntityId, schema: Schema, parents: seq<OperationId>, body: Body)
    : Result<Operation, ClientError>
  {
    var draft := DraftOf(a, n, entity, schema, parents, body);
    if draft.occurredAt < 0 then Err(ClockBeforeUnixEpoch)
    else
      var op := a.sign(draft);
      if !Verified(op) then Err(UnverifiedOperation)
      else if !ProjectionMatches(op, draft, a.actor) then Err(SignerProjectionMismatch)
      else Ok(op)
  }

  function RequireEntity(a: Author, observed: ObservedEntity, schema: Schema): Result<(), ClientError> {
    if observed.space != a.context.space then Err(ObservedSpaceMismatch)
    else if observed.schema != schema then Err(ObservedSchemaMismatch)
    else Ok(())
  }

  function Update(a: Author, n: nat, observed: ObservedEntity, schema: Schema, body: Body): Result<Operation, ClientError> {
    match RequireEntity(a, observed, schema)
    case Err(e) => Err(e)
    case Ok(_) =>
      if schema.Profile? && observed.entity != a.profileEntity then Err(InvalidObservedEntity)
      else AuthorOperation(a, n, observed.entity, schema, observed.heads, body)
  }

  function Delete(a: Author, n: nat, observed: ObservedEntity): Result<Operation, ClientError> {
    match RequireEntity(a, observed, observed.schema)
    case Err(e) => Err(e)
    case Ok(_) =>
      if observed.schema.Profile? && observed.entity != a.profileEntity then Err(InvalidObservedEntity)
      else AuthorOperation(a, n, observed.entity, observed.schema, observed.heads, Tombstone)
  }

  function ImportRecord(a: Author, n: nat, entity: EntityId, payload: Protected<RecordDocument>): Result<Operation, ClientError> {
    if entity == NIL_ENTITY then Err(NilEntityId)
    else AuthorOperation(a, n, entity, Record, [], PutRecord(payload))
  }

  // ----- observation is exact -----

  lemma {:induction false} ListIdsIsExact(log: seq<Entry>, ids: set<OperationId>, id: OperationId)
    ensures id in ListIds(log, ids) <==> id in Ops(log) && id in ids
  {
    if log != [] { ListIdsIsExact(log[..|log| - 1], ids, id); }
  }

  /** The observed heads are exactly the head rows of the entity, sorted. */
  lemma ObservedHeads(g: Graph, key: Key)
    requires HeadRowsMatch(Ops(g.log), g.derived.heads)
    ensures StrictlySorted(SortedHeads(g, key), NatLess) && |SortedHeads(g, key)| == |HeadsOf(g.derived.heads, key)|
    ensures forall id :: id in SortedHeads(g, key) <==> id in HeadsOf(g.derived.heads, key)
  {
    var ids := HeadsOf(g.derived.heads, key);
    var listed := ListIds(g.log, ids);
    SortDedupIsSorted(listed);
    forall id ensures id in SortDedup(listed) <==> id in ids { ListIdsIsExact(g.log, ids, id); }
    SortedLength(SortDedup(listed), ids);
  }

  lemma SortedHeadsAreCanonical(g: Graph, key: Key)
    ensures SortDedup(SortedHeads(g, key)) == SortedHeads(g, key)
  {
    SortDedupIsSorted(ListIds(g.log, HeadsOf(g.derived.heads, key)));
    SortDedupIsSorted(SortedHeads(g, key));
    SortedSetIsUnique(SortDedup(SortedHeads(g, key)), SortedHeads(g, key));
  }

  lemma HistorySchemas(log: seq<Entry>, key: Key, root: OperationId)
    requires IsRootOf(Ops(log), key, root)
    ensures SchemasOf(log, key) == {Ops(log)[root].schema} && FirstSchema(SchemasOf(log, key)) == Ops(log)[root].schema
    ensures History(log, key) != {}
  {
    assert root in History(log, key);
  }

  /** What reading a nonempty history returns. */
  ghost predicate Readable(g: Graph, key: Key, schema: Schema) {
    && Entity(g, key) == Ok(Some(LocalEntity(schema, |History(g.log, key)|, SortedHeads(g, key))))
    && 1 <= |SortedHeads(g, key)| <= MAX_CAUSAL_PARENTS
    && (forall id :: id in SortedHeads(g, key) <==> id in HeadsOf(g.derived.heads, key))
  }

  lemma HeadsWithinBounds(g: Graph, key: Key)
    requires LegalLog(g.log) && SpaceLocal(Ops(g.log)) && CappedLog(g.log) && HeadsExact(Ops(g.log), g.derived.heads)
    requires !HistoryEmpty(Ops(g.log), key)
    ensures 1 <= |SortedHeads(g, key)| <= MAX_CAUSAL_PARENTS
  {
    HeadCountBounded(g.log, key);
    HeadsAreOpen(Ops(g.log), g.derived.heads, key);
    ObservedHeads(g, key);
  }

  lemma RootIsReadable(g: Graph, key: Key, root: OperationId)
    requires HeadRowsMatch(Ops(g.log), g.derived.heads) && IsRootOf(Ops(g.log), key, root)
    requires 1 <= |SortedHeads(g, key)| <= MAX_CAUSAL_PARENTS
    ensures Readable(g, key, Ops(g.log)[root].schema)
  {
    HistorySchemas(g.log, key, root);
    ObservedHeads(g, key);
  }

  /** Every stored operation's entity is readable under that operation's schema. */
  lemma StoredIsReadable(g: Graph, id: OperationId)
    requires LegalLog(g.log) && SpaceLocal(Ops(g.log)) && CappedLog(g.log) && HeadsExact(Ops(g.log), g.derived.heads)
    requires id in Ops(g.log)
    ensures Readable(g, KeyOf(Ops(g.log)[id]), Ops(g.log)[id].schema)
  {
    var key := KeyOf(Ops(g.log)[id]);
    HeadsWithinBounds(g, key);
    var root := OneRootOneSchemaOneVisibility(g.log, key);
    RootIsReadable(g, key, root);
  }

  /** With space-local parents, reading an entity never fails, and it is absent exactly when its history is empty. */
  lemma EntityNeverCorrupt(db: Database, key: Key)
    requires HistoriesInv(db)
    ensures Entity(db.graph, key).Ok?
    ensures Entity(db.graph, key).value.None? <==> HistoryEmpty(Ops(db.graph.log), key)
  {
    HistoryIsEmpty(db.graph.log, key);
    if !HistoryEmpty(Ops(db.graph.log), key) {
      var id :| id in Ops(db.graph.log) && KeyOf(Ops(db.graph.log)[id]) == key;
      StoredIsReadable(db.graph, id);
    }
  }

  /** Reading and observing agree on the heads. */
  lemma ReadableIsObservable(g: Graph, space: SpaceId, entity: EntityId, schema: Schema)
    requires Readable(g, (space, entity), schema)
    requires space != NIL_SPACE && entity != NIL_ENTITY && IsClientSchema(schema)
    ensures Observe(g, space, entity, schema) == Ok(Some(ObservedEntity(space, entity, schema, SortedHeads(g, (space, entity)))))
  {
    SortedHeadsAreCanonical(g, (space, entity));
  }

  /** With space-local parents the head cap never refuses an observation: a client entity of a real space is observable
      under its own schema, with exactly its current heads. */
  lemma ObservationNeverHitsCap(db: Database, space: SpaceId, id: OperationId)
    requires HistoriesInv(db) && space != NIL_SPACE && id in Ops(db.graph.log)
    requires Ops(db.graph.log)[id].space == space && IsClientSchema(Ops(db.graph.log)[id].schema)
    ensures
      var g, op := db.graph, Ops(db.graph.log)[id];
      && Observe(g, space, op.entity, op.schema) == Ok(Some(ObservedEntity(space, op.entity, op.schema, SortedHeads(g, KeyOf(op)))))
      && (forall h :: h in SortedHeads(g, KeyOf(op)) <==> h in HeadsOf(g.derived.heads, KeyOf(op)))
  {
    var op := Ops(db.graph.log)[id];
    LegalIds(db.graph.log, id);
    StoredIsReadable(db.graph, id);
    ReadableIsObservable(db.graph, space, op.entity, op.schema);
  }

  // ----- committing what was authored -----

  /** The operation edits the observed entity from exactly the observed heads. */
  ghost predicate EditOf(op: Operation, observed: ObservedEntity) {
    && Verified(op) && op.space == observed.space && op.entity == observed.entity && op.schema == observed.schema
    && op.parents == observed.heads
  }

  ghost predicate ObservedIn(db: Database, observed: ObservedEntity) {
    Observe(db.graph, observed.space, observed.entity, observed.schema) == Ok(Some(observed))
  }

  lemma ObservedIsNonempty(g: Graph, observed: ObservedEntity)
    requires Observe(g, observed.space, observed.entity, observed.schema) == Ok(Some(observed))
    ensures History(g.log, (observed.space, observed.entity)) != {} && observed.heads != []
    ensures observed.heads == SortedHeads(g, (observed.space, observed.entity))
    ensures Entity(g, (observed.space, observed.entity)).Ok? && Entity(g, (observed.space, observed.entity)).value.Some?
    ensures Entity(g, (observed.space, observed.entity)).value.value.schema == observed.schema
  {
    SortedHeadsAreCanonical(g, (observed.space, observed.entity));
  }

  ghost predicate StoredParents(ops: OpMap, op: Operation) {
    forall p | p in op.parents :: p in ops && KeyOf(ops[p]) == KeyOf(op) && ops[p].schema == op.schema
  }

  /** An observed entity has the one schema it was observed under. */
  lemma ObservedSchema(g: Graph, observed: ObservedEntity, id: OperationId)
    requires Observe(g, observed.space, observed.entity, observed.schema) == Ok(Some(observed))
    requires id in Ops(g.log) && KeyOf(Ops(g.log)[id]) == (observed.space, observed.entity)
    ensures Ops(g.log)[id].schema == observed.schema
  {
    var schemas := SchemasOf(g.log, (observed.space, observed.entity));
    assert id in History(g.log, (observed.space, observed.entity));
    assert Ops(g.log)[id].schema in schemas && |schemas| == 1;
    SingleElement(schemas, Ops(g.log)[id].schema);
    assert FirstSchema(schemas) == observed.schema;
  }

  lemma ObservedFacts(db: Database, observed: ObservedEntity, op: Operation)
    requires DatabaseInv(db) && ObservedIn(db, observed) && EditOf(op, observed)
    ensures op.parents != [] && StoredParents(Ops(db.graph.log), op)
    ensures forall h :: h in op.parents <==> h in HeadsOf(db.graph.derived.heads, KeyOf(op))
  {
    var g := db.graph;
    ObservedIsNonempty(g, observed);
    ObservedHeads(g, KeyOf(op));
    forall p | p in op.parents ensures p in Ops(g.log) && KeyOf(Ops(g.log)[p]) == KeyOf(op) && Ops(g.log)[p].schema == op.schema {
      assert p in HeadsOf(g.derived.heads, KeyOf(op));
      ObservedSchema(g, observed, p);
    }
  }

  lemma SubsetDifference(s: set<OperationId>, t: set<OperationId>)
    requires t <= s
    ensures |s - t| == |s| - |t|
  {
  }

  /** Parents of the edit's own entity consume exactly the heads among them. */
  lemma ConsumedHeads(ops: OpMap, heads: map<OperationId, HeadRow>, op: Operation)
    requires HeadRowsMatch(ops, heads) && Verified(op) && StoredParents(ops, op)
    ensures |HeadsOf(heads, KeyOf(op))| - CountHeads(heads, op.parents) == |HeadsOf(heads, KeyOf(op)) - ParentSet(op)|
  {
    var current := HeadsOf(heads, KeyOf(op));
    DistinctParents(op);
    CountHeadsIsCardinality(heads, op.parents);
    forall p ensures p in ParentSet(op) <==> p in op.parents { ParentSetMembers(op, p); }
    var consumed := HeadsAmong(heads, op.parents);
    assert consumed <= current && current - consumed == current - ParentSet(op);
    SubsetDifference(current, consumed);
  }

  /** An edit of heads that are still stored passes topology exactly when its entity has a head and fewer than 64 current
      heads were unobserved. */
  lemma EditPassesTopology(db: Database, op: Operation)
    requires DatabaseInv(db) && Verified(op) && op.parents != [] && StoredParents(Ops(db.graph.log), op)
    ensures CheckTopology(db.graph, op).Ok? <==>
            && HeadsOf(db.graph.derived.heads, KeyOf(op)) != {}
            && |HeadsOf(db.graph.derived.heads, KeyOf(op)) - ParentSet(op)| < MAX_CAUSAL_PARENTS
  {
    ConsumedHeads(Ops(db.graph.log), db.graph.derived.heads, op);
    TopologyOfStored(db.graph, op);
  }

  lemma TopologyOfStored(g: Graph, op: Operation)
    requires op.parents != [] && StoredParents(Ops(g.log), op)
    ensures CheckTopology(g, op).Ok? <==>
            && HeadsOf(g.derived.heads, KeyOf(op)) != {}
            && |HeadsOf(g.derived.heads, KeyOf(op))| - CountHeads(g.derived.heads, op.parents) < MAX_CAUSAL_PARENTS
  {
    FirstMismatchNone(g.log, op, op.parents);
    HistoryIsEmpty(g.log, KeyOf(op));
    assert op.parents[0] in op.parents && !HistoryEmpty(Ops(g.log), KeyOf(op));
  }

  /** A committed new edit replaces exactly the heads it names. */
  lemma CommitReplacesHeads(db: Database, op: Operation, at: int)
    requires DatabaseInv(db) && op.id !in Ops(db.graph.log) && Commit(db, op, at, Local).Ok?
    ensures HeadsOf(Commit(db, op, at, Local).value.graph.derived.heads, KeyOf(op)) ==
            HeadsOf(db.graph.derived.heads, KeyOf(op)) - ParentSet(op) + {op.id}
  {
    HeadsAfterAdmit(db.graph, op, at, true, KeyOf(op));
  }

  /** Nothing interleaved: the edit passes topology, and once committed it is the entity's only head. */
  lemma UninterleavedEdit(db: Database, observed: ObservedEntity, op: Operation, at: int)
    requires DatabaseInv(db) && ObservedIn(db, observed) && EditOf(op, observed)
    ensures CheckTopology(db.graph, op).Ok?
    ensures op.id !in Ops(db.graph.log) && Commit(db, op, at, Local).Ok? ==>
              HeadsOf(Commit(db, op, at, Local).value.graph.derived.heads, KeyOf(op)) == {op.id}
  {
    ObservedFacts(db, observed, op);
    assert op.parents[0] in op.parents;
    NamesEveryHead(db.graph.derived.heads, op);
    EditPassesTopology(db, op);
    if op.id !in Ops(db.graph.log) && Commit(db, op, at, Local).Ok? { CommitTakesAllHeads(db, op, at); }
  }

  lemma CommitTakesAllHeads(db: Database, op: Operation, at: int)
    requires DatabaseInv(db) && op.id !in Ops(db.graph.log) && Commit(db, op, at, Local).Ok?
    requires HeadsOf(db.graph.derived.heads, KeyOf(op)) - ParentSet(op) == {}
    ensures HeadsOf(Commit(db, op, at, Local).value.graph.derived.heads, KeyOf(op)) == {op.id}
  {
    CommitReplacesHeads(db, op, at);
  }

  lemma ClientOperationIsProjected(op: Operation)
    requires Verified(op) && IsClientSchema(op.schema)
    ensures Projected(op)
  {
  }

  lemma DeriveEdit(d: Derived, op: Operation)
    requires Projected(op) && op.parents != [] && KeyOf(op) in d.visibility
    ensures Derive(d, op).Ok? <==> DeclaredVisibility(op.body).Some? ==>
              d.visibility[KeyOf(op)].visibility == DeclaredVisibility(op.body).value
  {
  }

  lemma ParentHasVisibility(g: Graph, op: Operation)
    requires LegalLog(g.log) && ProjectionsMatch(Ops(g.log), g.derived)
    requires Verified(op) && IsClientSchema(op.schema) && op.parents != [] && StoredParents(Ops(g.log), op)
    ensures KeyOf(op) in g.derived.visibility
  {
    var p := op.parents[0];
    assert p in op.parents;
    LegalIds(g.log, p);
    ClientOperationIsProjected(Ops(g.log)[p]);
    assert p in g.derived.projections;
  }

  /** Nothing interleaved: a fresh edit is admitted exactly when its authorizations are stored and it declares no
      visibility other than the entity's own; a delete declares none. */
  lemma UninterleavedAdmission(db: Database, observed: ObservedEntity, op: Operation, at: int)
    requires DatabaseInv(db) && ObservedIn(db, observed) && EditOf(op, observed) && IsClientSchema(op.schema)
    ensures KeyOf(op) in db.graph.derived.visibility
    ensures Admit(db.graph, op, at, true).Ok? <==>
            && (forall a | a in op.authorization :: a in Ops(db.graph.log))
            && (DeclaredVisibility(op.body).Some? ==>
                  db.graph.derived.visibility[KeyOf(op)].visibility == DeclaredVisibility(op.body).value)
  {
    ObservedFacts(db, observed, op);
    UninterleavedEdit(db, observed, op, at);
    ParentHasVisibility(db.graph, op);
    ReferencesExact(db.graph.log, op);
    ClientOperationIsProjected(op);
    DeriveEdit(db.graph.derived, op);
  }

  lemma NamesEveryHead(heads: map<OperationId, HeadRow>, op: Operation)
    requires forall h :: h in op.parents <==> h in HeadsOf(heads, KeyOf(op))
    ensures HeadsOf(heads, KeyOf(op)) - ParentSet(op) == {}
  {
    forall p ensures p in ParentSet(op) <==> p in op.parents { ParentSetMembers(op, p); }
  }

  /** The run accepts no deletion of the space. */
  ghost predicate KeepsSpace(db: Database, steps: seq<Step>, space: SpaceId)
    decreases |steps|
  {
    steps == [] || (!(steps[0] == DeleteStep(space) && Apply(db, steps[0]).Ok?) && KeepsSpace(Next(db, steps[0]), steps[1..], space))
  }

  lemma {:induction false} OperationSurvives(db: Database, steps: seq<Step>, id: OperationId)
    requires DatabaseInv(db) && id in Ops(db.graph.log) && KeepsSpace(db, steps, Ops(db.graph.log)[id].space)
    ensures id in Ops(Run(db, steps).graph.log) && Ops(Run(db, steps).graph.log)[id] == Ops(db.graph.log)[id]
    decreases |steps|
  {
    if steps != [] {
      OperationIsKept(db, steps[0], id);
      NextKeepsInv(db, steps[0]);
      OperationSurvives(Next(db, steps[0]), steps[1..], id);
    }
  }

  /** Every parent of the edit is still stored as it was. */
  ghost predicate ParentsKept(db: Database, now: Database, op: Operation) {
    forall p | p in op.parents ::
      p in Ops(db.graph.log) && p in Ops(now.graph.log) && Ops(now.graph.log)[p] == Ops(db.graph.log)[p]
  }

  /** After any interleaved steps: unless the space was deleted, the edit's parents are still stored; if they are, it passes
      topology exactly when the entity has a head and fewer than 64 current heads were unobserved; and committing it
      replaces exactly the observed heads by the new one. */
  lemma InterleavedEdit(db: Database, steps: seq<Step>, observed: ObservedEntity, op: Operation, at: int)
    requires DatabaseInv(db) && ObservedIn(db, observed) && EditOf(op, observed)
    ensures
      var now := Run(db, steps);
      var heads := HeadsOf(now.graph.derived.heads, KeyOf(op));
      && (KeepsSpace(db, steps, observed.space) ==> ParentsKept(db, now, op))
      && (ParentsKept(db, now, op) ==>
            (CheckTopology(now.graph, op).Ok? <==> heads != {} && |heads - ParentSet(op)| < MAX_CAUSAL_PARENTS))
      && (op.id !in Ops(now.graph.log) && Commit(now, op, at, Local).Ok? ==>
            HeadsOf(Commit(now, op, at, Local).value.graph.derived.heads, KeyOf(op)) == heads - ParentSet(op) + {op.id})
  {
    var now := Run(db, steps);
    RunKeepsInv(db, steps);
    ObservedFacts(db, observed, op);
    if KeepsSpace(db, steps, observed.space) { ParentsSurvive(db, steps, op); }
    if ParentsKept(db, now, op) { EditPassesTopology(now, op); }
    if op.id !in Ops(now.graph.log) && Commit(now, op, at, Local).Ok? { CommitReplacesHeads(now, op, at); }
  }

  lemma ParentsSurvive(db: Database, steps: seq<Step>, op: Operation)
    requires DatabaseInv(db) && StoredParents(Ops(db.graph.log), op) && KeepsSpace(db, steps, op.space)
    ensures ParentsKept(db, Run(db, steps), op)
  {
    forall p | p in op.parents
      ensures p in Ops(Run(db, steps).graph.log) && Ops(Run(db, steps).graph.log)[p] == Ops(db.graph.log)[p]
    {
      OperationSurvives(db, steps, p);
    }
  }

  // ----- the runtime calls -----

  datatype Edit = Edit(observed: ObservedEntity, op: Operation)

  function Prepare(g: Graph, a: Author, n: nat, entity: EntityId, schema: Schema, body: Option<Body>): Result<Edit, RuntimeError> {
    match Observe(g, a.context.space, entity, schema)
    case Err(e) => Err(e)
    case Ok(None) => Err(EntityNotFound(entity))
    case Ok(Some(observed)) =>
      match (if body.Some? then Update(a, n, observed, schema, body.value) else Delete(a, n, observed))
      case Err(e) => Err(OfClient(e))
      case Ok(op) => Ok(Edit(observed, op))
  }

  /** The edit is of the requested entity, authored from exactly the heads the graph held. */
  ghost predicate EditFrom(g: Graph, edit: Edit, space: SpaceId, entity: EntityId, schema: Schema, body: Option<Body>) {
    && Observe(g, space, entity, schema) == Ok(Some(edit.observed)) && EditOf(edit.op, edit.observed)
    && edit.observed == ObservedEntity(space, entity, schema, edit.observed.heads)
    && edit.op.body == if body.Some? then body.value else Tombstone
  }

  lemma PreparedEdit(g: Graph, a: Author, n: nat, entity: EntityId, schema: Schema, body: Option<Body>)
    requires Prepare(g, a, n, entity, schema, body).Ok?
    ensures EditFrom(g, Prepare(g, a, n, entity, schema, body).value, a.context.space, entity, schema, body)
  {
  }

  /** Update (with a body) or delete (without): observe, author, commit; any failure leaves the store as it was. */
  method CommitAuthored(store: Store.ClientStore, a: Author, n: nat, entity: EntityId, schema: Schema, body: Option<Body>)
    returns (r: Result<Edit, RuntimeError>)
    requires store.Valid()
    modifies store
    ensures store.Valid()
    ensures r.Err? ==> store.Tables() == old(store.Tables())
    ensures r.Ok? ==> EditFrom(old(store.graph), r.value, a.context.space, entity, schema, body)
    ensures r.Ok? ==> Commit(old(store.Tables()), r.value.op, r.value.op.occurredAt, Local) == Ok(store.Tables())
  {
    r := Prepare(store.graph, a, n, entity, schema, body);
    if r.Ok? {
      PreparedEdit(store.graph, a, n, entity, schema, body);
      var committed := store.Commit(r.value.op, r.value.op.occurredAt, Local);
      if committed.Err? { r := Err(OfStore(committed.error)); }
    }
  }
}
