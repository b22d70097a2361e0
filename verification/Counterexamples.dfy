/** Reachable stores at which a claim fails once causal parents leave their space. */
module Counterexamples {
  import opened Wrappers
  import opened Operations
  import opened OperationGraph
  import opened GraphInvariants
  import opened EntityHistories
  import opened Outbox
  import opened ClientDatabase
  import opened StoreRuns
  import opened CommitAcceptance
  import opened Authoring
  import Forwarding

  // ----- operations: one genesis, and entity 5 in the spaces 1 and 2 -----

  const HERE: Key := (1, 5)
  const THERE: Key := (2, 5)

  function Anchor(): Operation { Operation(1, 1, 8, 9, SpaceGenesis, [], [], 0, 0, GenesisBody(8), true) }

  function Revoke(id: OperationId, space: SpaceId, parents: seq<OperationId>): Operation {
    Operation(id, space, 8, 5, CapabilityRevoke, parents, [1], 0, 0, RevokeBody(7), true)
  }

  function RecordRoot(): Operation {
    Operation(2, 1, 8, 5, Record, [], [1], 0, 0, PutRecord(PublicDocument(RecordDocument(0, None, None, None, []))), true)
  }

  function TagOf(id: OperationId, space: SpaceId, parents: seq<OperationId>): Operation {
    Operation(id, space, 8, 5, Tag, parents, [1], 0, 0, PutTag(PublicDocument(TagDocument("t"))), true)
  }

  /** Commits the operations one after the other as local, at time 0. */
  function Commits(ops: seq<Operation>): seq<Step> {
    if ops == [] then [] else Commits(ops[..|ops| - 1]) + [CommitStep(ops[|ops| - 1], 0, Local)]
  }

  ghost function After(ops: seq<Operation>): Database { Run(EMPTY_DATABASE, Commits(ops)) }

  lemma AfterSnoc(ops: seq<Operation>, op: Operation)
    ensures After(ops + [op]) == Next(After(ops), CommitStep(op, 0, Local))
  {
    assert (ops + [op])[..|ops|] == ops;
    RunSnoc(Commits(ops), CommitStep(op, 0, Local));
  }

  lemma RunSnoc(steps: seq<Step>, step: Step)
    ensures Run(EMPTY_DATABASE, steps + [step]) == Next(Run(EMPTY_DATABASE, steps), step)
  {
    RunSplits(EMPTY_DATABASE, steps, [step]);
    assert [step][1..] == [];
  }

  // ----- what one more commit does -----

  /** A well-formed store without peers, with exact heads and every operation stored at time 0. */
  ghost predicate Plain(db: Database) {
    && DatabaseInv(db) && Exact(db) && db.outbox == EMPTY_OUTBOX
    && (forall e | e in db.graph.log :: e.storedAt == 0)
  }

  ghost predicate HeadsAt(heads: map<OperationId, HeadRow>, here: set<OperationId>, there: set<OperationId>) {
    HeadsOf(heads, HERE) == here && HeadsOf(heads, THERE) == there
  }

  /** The run of commits was accepted and stored `ops`; `here` and `there` are the heads of entity 5 in the two spaces. */
  ghost predicate At(list: seq<Operation>, ops: OpMap, here: set<OperationId>, there: set<OperationId>) {
    && Plain(After(list)) && Ops(After(list).graph.log) == ops && HeadsAt(After(list).graph.derived.heads, here, there)
  }

  /** What the next operation must satisfy. */
  ghost predicate Appends(ops: OpMap, here: set<OperationId>, there: set<OperationId>, op: Operation) {
    && LegalNext(ops, op) && Resources(op.body) == []
    && (forall p | p in op.parents :: KeyOf(ops[p]) == HERE || KeyOf(ops[p]) == THERE)
    && (|| HistoryEmpty(ops, KeyOf(op))
        || (KeyOf(op) == HERE && here != {} && |here| - |ParentSet(op) * (here + there)| + 1 <= MAX_CAUSAL_PARENTS))
  }

  ghost function HeadsAfter(heads: set<OperationId>, op: Operation, key: Key): set<OperationId> {
    heads - ParentSet(op) + if key == KeyOf(op) then {op.id} else {}
  }

  lemma OpenByHeads(ops: OpMap, heads: map<OperationId, HeadRow>, here: set<OperationId>, there: set<OperationId>, op: Operation)
    requires HeadsExact(ops, heads) && HeadsAt(heads, here, there)
    requires forall p | p in op.parents :: p in ops && (KeyOf(ops[p]) == HERE || KeyOf(ops[p]) == THERE)
    ensures OpenOf(ops, HERE) == here && OpenParents(ops, op) == ParentSet(op) * (here + there)
  {
    HeadsAreOpen(ops, heads, HERE);
    HeadsAreOpen(ops, heads, THERE);
    forall p ensures p in ParentSet(op) <==> p in op.parents { ParentSetMembers(op, p); }
    forall p | p in ParentSet(op) ensures Open(ops, p) <==> p in here + there {
      assert p in OpenOf(ops, HERE) <==> Open(ops, p) && KeyOf(ops[p]) == HERE;
      assert p in OpenOf(ops, THERE) <==> Open(ops, p) && KeyOf(ops[p]) == THERE;
    }
  }

  lemma AppendsWithinCap(ops: OpMap, heads: map<OperationId, HeadRow>, here: set<OperationId>, there: set<OperationId>, op: Operation)
    requires HeadsExact(ops, heads) && HeadsAt(heads, here, there) && Appends(ops, here, there, op)
    ensures WithinCap(ops, op)
  {
    OpenByHeads(ops, heads, here, there, op);
    if HistoryEmpty(ops, KeyOf(op)) { assert OpenOf(ops, KeyOf(op)) == {}; }
  }

  lemma NoPeersNoRows(db: Database, op: Operation)
    requires db.outbox == EMPTY_OUTBOX && Commit(db, op, 0, Local).Ok?
    ensures Commit(db, op, 0, Local).value.outbox == EMPTY_OUTBOX
  {
    assert ApplySource(db.outbox, op, 0, Local) == Ok(Commit(db, op, 0, Local).value.outbox);
    assert RecipientsOf(EMPTY_OUTBOX, op.space, Local) == {};
  }

  lemma AcceptedInto(db: Database, op: Operation)
    requires Plain(db) && LegalNext(Ops(db.graph.log), op) && WithinCap(Ops(db.graph.log), op) && Resources(op.body) == []
    ensures Commit(db, op, 0, Local).Ok? && op.id !in Ops(db.graph.log)
    ensures Admit(db.graph, op, 0, true) == Ok(Commit(db, op, 0, Local).value.graph)
  {
    LegalIsAdmitted(db.graph, op, 0, true);
    NewOperationIsCommitted(db, db.media, op, 0, Local);
    CommitAdmits(db, op, 0, Local);
  }

  lemma StaysPlain(db: Database, op: Operation)
    requires Plain(db) && op.id !in Ops(db.graph.log) && Commit(db, op, 0, Local).Ok?
    requires Admit(db.graph, op, 0, true) == Ok(Commit(db, op, 0, Local).value.graph)
    ensures Plain(Commit(db, op, 0, Local).value)
    ensures Ops(Commit(db, op, 0, Local).value.graph.log) == Ops(db.graph.log)[op.id := op]
  {
    NextKeepsInv(db, CommitStep(op, 0, Local));
    NextKeepsExact(db, CommitStep(op, 0, Local));
    NoPeersNoRows(db, op);
    AdmitAppends(db.graph, op, 0, true);
    OpsAppend(db.graph.log, Entry(db.graph.lastSequence + 1, op, 0, true));
  }

  lemma HeadsMove(g: Graph, op: Operation, next: Graph, here: set<OperationId>, there: set<OperationId>)
    requires op.id !in Ops(g.log) && HeadRowsMatch(Ops(g.log), g.derived.heads) && Admit(g, op, 0, true) == Ok(next)
    requires HeadsAt(g.derived.heads, here, there)
    ensures HeadsAt(next.derived.heads, HeadsAfter(here, op, HERE), HeadsAfter(there, op, THERE))
  {
    HeadsAfterAdmit(g, op, 0, true, HERE);
    HeadsAfterAdmit(g, op, 0, true, THERE);
  }

  /** One more operation of the list is accepted. */
  lemma Append(list: seq<Operation>, ops: OpMap, here: set<OperationId>, there: set<OperationId>, op: Operation)
    requires At(list, ops, here, there) && Appends(ops, here, there, op)
    ensures At(list + [op], ops[op.id := op], HeadsAfter(here, op, HERE), HeadsAfter(there, op, THERE))
  {
    var db := After(list);
    AppendsWithinCap(ops, db.graph.derived.heads, here, there, op);
    AcceptedInto(db, op);
    StaysPlain(db, op);
    HeadsMove(db.graph, op, Commit(db, op, 0, Local).value.graph, here, there);
    AfterSnoc(list, op);
  }

  // ----- building lists without looking into the store -----

  type State = (seq<Operation>, OpMap, set<OperationId>, set<OperationId>) -> bool

  ghost predicate Closed(at: State) {
    && at([], map[], {}, {})
    && (forall list, ops, here, there, op | at(list, ops, here, there) && Appends(ops, here, there, op) ::
          at(list + [op], ops[op.id := op], HeadsAfter(here, op, HERE), HeadsAfter(there, op, THERE)))
  }

  ghost function Reached(): State { (list, ops, here, there) => At(list, ops, here, there) }

  lemma ReachedIsClosed()
    ensures Closed(Reached())
  {
    EmptyIsExact();
    assert HeadsAt(EMPTY_DATABASE.graph.derived.heads, {}, {});
    var at := Reached();
    forall list, ops, here, there, op | at(list, ops, here, there) && Appends(ops, here, there, op)
      ensures at(list + [op], ops[op.id := op], HeadsAfter(here, op, HERE), HeadsAfter(there, op, THERE))
    {
      Append(list, ops, here, there, op);
    }
  }

  /** One append, with the resulting list, operations and heads spelled out. */
  lemma Extend(at: State, list: seq<Operation>, ops: OpMap, here: set<OperationId>, there: set<OperationId>, op: Operation,
               list': seq<Operation>, ops': OpMap, here': set<OperationId>, there': set<OperationId>)
    requires Closed(at) && at(list, ops, here, there) && Appends(ops, here, there, op)
    requires list' == list + [op] && ops' == ops[op.id := op]
    requires here' == HeadsAfter(here, op, HERE) && there' == HeadsAfter(there, op, THERE)
    ensures at(list', ops', here', there')
  {
  }

  lemma NoParents(op: Operation)
    requires op.parents == []
    ensures ParentSet(op) == {}
  {
  }

  lemma OneParent(op: Operation, p: OperationId)
    requires op.parents == [p]
    ensures ParentSet(op) == {p}
  {
    assert op.parents[0] == p;
  }

  /** A root in an empty history may always be appended. */
  lemma RootAppends(ops: OpMap, here: set<OperationId>, there: set<OperationId>, op: Operation)
    requires Verified(op) && op.parents == [] && op.id !in ops && Resources(op.body) == [] && !op.body.Tombstone?
    requires HistoryEmpty(ops, KeyOf(op)) && forall a | a in op.authorization :: a in ops
    ensures Appends(ops, here, there, op)
  {
  }

  lemma Anchored(at: State)
    requires Closed(at)
    ensures at([Anchor()], map[1 := Anchor()], {}, {})
  {
    NoParents(Anchor());
    RootAppends(map[], {}, {}, Anchor());
    Extend(at, [], map[], {}, {}, Anchor(), [Anchor()], map[1 := Anchor()], {}, {});
  }

  // ----- a history with two schemas -----

  function Split(): seq<Operation> { [Anchor(), RecordRoot(), TagOf(3, 2, []), TagOf(4, 1, [3])] }

  function SplitOps(): OpMap { map[1 := Anchor(), 2 := RecordRoot(), 3 := TagOf(3, 2, []), 4 := TagOf(4, 1, [3])] }

  lemma RecordRooted(at: State)
    requires Closed(at)
    ensures at([Anchor(), RecordRoot()], map[1 := Anchor(), 2 := RecordRoot()], {2}, {})
  {
    Anchored(at);
    NoParents(RecordRoot());
    RootAppends(map[1 := Anchor()], {}, {}, RecordRoot());
    Extend(at, [Anchor()], map[1 := Anchor()], {}, {}, RecordRoot(),
           [Anchor(), RecordRoot()], map[1 := Anchor(), 2 := RecordRoot()], {2}, {});
  }

  lemma BothRooted(at: State)
    requires Closed(at)
    ensures at([Anchor(), RecordRoot(), TagOf(3, 2, [])], map[1 := Anchor(), 2 := RecordRoot(), 3 := TagOf(3, 2, [])], {2}, {3})
  {
    RecordRooted(at);
    var ops: OpMap, tag := map[1 := Anchor(), 2 := RecordRoot()], TagOf(3, 2, []);
    NoParents(tag);
    RootAppends(ops, {2}, {}, tag);
    Extend(at, [Anchor(), RecordRoot()], ops, {2}, {}, tag, [Anchor(), RecordRoot(), tag], ops[3 := tag], {2}, {3});
  }

  lemma SplitAppends(ops: OpMap, tag: Operation)
    requires ops == map[1 := Anchor(), 2 := RecordRoot(), 3 := TagOf(3, 2, [])] && tag == TagOf(4, 1, [3])
    ensures Appends(ops, {2}, {3}, tag)
  {
    assert RootFor(ops, tag, 2);
    OneParent(tag, 3);
    assert ParentSet(tag) * ({2} + {3}) == {3};
  }

  lemma SplitIsReached(at: State)
    requires Closed(at)
    ensures at(Split(), SplitOps(), {2, 4}, {})
  {
    BothRooted(at);
    var ops: OpMap, tag := map[1 := Anchor(), 2 := RecordRoot(), 3 := TagOf(3, 2, [])], TagOf(4, 1, [3]);
    SplitAppends(ops, tag);
    OneParent(tag, 3);
    assert HeadsAfter({2}, tag, HERE) == {2, 4} && HeadsAfter({3}, tag, THERE) == {};
    Extend(at, [Anchor(), RecordRoot(), TagOf(3, 2, [])], ops, {2}, {3}, tag, Split(), SplitOps(), {2, 4}, {});
  }

  /** Counterexample: a tag naming a tag of another space joins a record's history, and reading the entity then fails. */
  lemma SchemaCanSplit()
    ensures
      var g := After(Split()).graph;
      SchemasOf(g.log, HERE) == {Record, Tag} && Entity(g, HERE) == Err(Corrupt)
  {
    ReachedIsClosed();
    SplitIsReached(Reached());
    SplitSchemas(After(Split()).graph);
  }

  lemma SplitSchemas(g: Graph)
    requires Ops(g.log) == SplitOps()
    ensures SchemasOf(g.log, HERE) == {Record, Tag} && Entity(g, HERE) == Err(Corrupt)
  {
    assert History(g.log, HERE) == {2, 4};
    assert SchemasOf(g.log, HERE) == {Record, Tag};
    assert |{Record, Tag}| == 2;
  }

  // ----- a history that lost its head, and a deletion that hides it -----

  function Hiding(): seq<Operation> { [Anchor(), Revoke(2, 1, []), Revoke(3, 2, [2])] }

  function HidingOps(): OpMap { map[1 := Anchor(), 2 := Revoke(2, 1, []), 3 := Revoke(3, 2, [2])] }

  lemma Rooted(at: State)
    requires Closed(at)
    ensures at([Anchor(), Revoke(2, 1, [])], map[1 := Anchor(), 2 := Revoke(2, 1, [])], {2}, {})
  {
    Anchored(at);
    NoParents(Revoke(2, 1, []));
    RootAppends(map[1 := Anchor()], {}, {}, Revoke(2, 1, []));
    Extend(at, [Anchor()], map[1 := Anchor()], {}, {}, Revoke(2, 1, []),
           [Anchor(), Revoke(2, 1, [])], map[1 := Anchor(), 2 := Revoke(2, 1, [])], {2}, {});
  }

  lemma HidingIsReached(at: State)
    requires Closed(at)
    ensures at(Hiding(), HidingOps(), {}, {3})
  {
    Rooted(at);
    var ops: OpMap, child := map[1 := Anchor(), 2 := Revoke(2, 1, [])], Revoke(3, 2, [2]);
    OneParent(child, 2);
    assert Appends(ops, {2}, {}, child);
    assert HeadsAfter({2}, child, HERE) == {} && HeadsAfter({}, child, THERE) == {3};
    Extend(at, [Anchor(), Revoke(2, 1, [])], ops, {2}, {}, child, Hiding(), HidingOps(), {}, {3});
  }

  lemma HidingState()
    ensures DatabaseInv(After(Hiding())) && Exact(After(Hiding())) && Ops(After(Hiding()).graph.log) == HidingOps()
  {
    ReachedIsClosed();
    HidingIsReached(Reached());
  }

  /** Counterexample: a foreign child takes the only head of another space's history. */
  lemma ForeignChildEmptiesHistory()
    ensures
      var g := After(Hiding()).graph;
      !HistoryEmpty(Ops(g.log), HERE) && HeadsOf(g.derived.heads, HERE) == {}
  {
    ReachedIsClosed();
    HidingIsReached(Reached());
    assert KeyOf(HidingOps()[2]) == HERE;
  }

  lemma HiddenTwo()
    ensures Detached(HidingOps(), 2) && !LeavesNoHiddenHead(HidingOps(), 2)
    ensures Open(Remaining(HidingOps(), 2), 2) && !Open(HidingOps(), 2)
  {
    var ops := HidingOps();
    assert ops[3].parents[0] == 2;
    assert Names(ops, 3, 2) && ops[3].space == 2 && ops[2].space == 1;
    forall other | Names(ops, other, 2) ensures ops[other].space == 2 { }
  }

  lemma RootlessThere()
    ensures !HistoryEmpty(HidingOps(), THERE) && !HasRoot(HidingOps(), THERE)
  {
    assert KeyOf(HidingOps()[3]) == THERE;
  }

  /** Counterexample: deleting space 2 is accepted and leaves operation 2 open but not a head, so a rebuild differs from
      the index. Before, the foreign child stood in a history of its own that has no root. */
  lemma DeletionCanHideHead()
    ensures
      var before := After(Hiding());
      && !HistoryEmpty(Ops(before.graph.log), THERE) && !HasRoot(Ops(before.graph.log), THERE)
      && Apply(before, DeleteStep(2)).Ok?
      && (var after := Next(before, DeleteStep(2));
          && Open(Ops(after.graph.log), 2) && 2 !in after.graph.derived.heads
          && Apply(after, RebuildStep) != Ok(after))
  {
    HidingState();
    HiddenTwo();
    RootlessThere();
    HidesHead(After(Hiding()), 2, 2);
  }

  lemma HidesHead(db: Database, space: SpaceId, id: OperationId)
    requires DatabaseInv(db) && Exact(db) && Detached(Ops(db.graph.log), space) && !LeavesNoHiddenHead(Ops(db.graph.log), space)
    requires Open(Remaining(Ops(db.graph.log), space), id) && !Open(Ops(db.graph.log), id)
    ensures Apply(db, DeleteStep(space)).Ok?
    ensures
      var after := Next(db, DeleteStep(space));
      && Ops(after.graph.log) == Remaining(Ops(db.graph.log), space)
      && id !in after.graph.derived.heads && Apply(after, RebuildStep) != Ok(after)
  {
    DeleteSucceedsExactly(db.graph, space);
    HeadsShrink(db.graph, space);
    DeleteStepIs(db, space);
    DeleteKeepsInv(db.graph, space);
    RebuildDiffers(Next(db, DeleteStep(space)));
  }

  lemma DeleteStepIs(db: Database, space: SpaceId)
    requires DeleteSpace(db.graph, space).Ok?
    ensures Apply(db, DeleteStep(space)).Ok? && Next(db, DeleteStep(space)).graph == DeleteSpace(db.graph, space).value
  {
  }

  lemma HeadsShrink(g: Graph, space: SpaceId)
    requires DeleteSpace(g, space).Ok?
    ensures DeleteSpace(g, space).value.derived.heads.Keys <= g.derived.heads.Keys
  {
  }

  lemma RebuildDiffers(db: Database)
    requires Inv(db.graph) && !Exact(db)
    ensures Apply(db, RebuildStep) != Ok(db)
  {
    RebuildReproducesTables(db.graph);
  }

  // ----- sixty-four heads -----

  function WideOp(id: OperationId): Operation {
    if id == 1 then Anchor() else if id == 2 then Revoke(2, 1, []) else Revoke(id, 1, [2])
  }

  /** The anchor, the root of entity 5 in space 1, and `k` children of that root. */
  function Wide(k: nat): seq<Operation> {
    if k == 0 then [Anchor(), Revoke(2, 1, [])] else Wide(k - 1) + [Revoke(k + 2, 1, [2])]
  }

  function WideOps(k: nat): OpMap { map id: nat | 1 <= id < k + 3 :: WideOp(id) }

  function Children(k: nat): set<OperationId> { set id | id in WideOps(k) && 3 <= id }

  function WideHeads(k: nat): set<OperationId> { if k == 0 then {2} else Children(k) }

  lemma ChildrenGrow(k: nat)
    ensures Children(k + 1) == Children(k) + {k + 3} && k + 3 !in Children(k) && 2 !in Children(k)
  {
  }

  lemma {:induction false} ChildrenCount(k: nat)
    ensures |Children(k)| == k
  {
    if k == 0 {
      assert Children(0) == {};
    } else {
      ChildrenCount(k - 1);
      ChildrenGrow(k - 1);
    }
  }

  lemma ChildIsLegal(ops: OpMap, id: OperationId)
    requires 2 < id && id !in ops && 1 in ops && 2 in ops && ops[2] == Revoke(2, 1, [])
    ensures LegalNext(ops, Revoke(id, 1, [2]))
  {
  }

  lemma WideAppends(k: nat, child: Operation)
    requires k < MAX_CAUSAL_PARENTS && child == Revoke(k + 3, 1, [2])
    ensures Appends(WideOps(k), WideHeads(k), {}, child)
  {
    OneParent(child, 2);
    ChildrenCount(k);
    assert WideOps(k)[2] == WideOp(2) && WideOps(k)[1] == WideOp(1);
    ChildIsLegal(WideOps(k), k + 3);
    if k == 0 {
      assert {2} * (WideHeads(k) + {}) == {2};
    } else {
      assert {2} * (WideHeads(k) + {}) == {};
      assert 3 in WideHeads(k);
    }
  }

  lemma WideHeadsAfter(k: nat, child: Operation)
    requires child == Revoke(k + 3, 1, [2])
    ensures HeadsAfter(WideHeads(k), child, HERE) == WideHeads(k + 1) && HeadsAfter({}, child, THERE) == {}
    ensures WideOps(k + 1) == WideOps(k)[k + 3 := child]
  {
    OneParent(child, 2);
    ChildrenGrow(k);
    assert WideOp(k + 3) == child;
  }

  lemma WideStep(at: State, k: nat)
    requires Closed(at) && k < MAX_CAUSAL_PARENTS && at(Wide(k), WideOps(k), WideHeads(k), {})
    ensures at(Wide(k + 1), WideOps(k + 1), WideHeads(k + 1), {})
  {
    var child := Revoke(k + 3, 1, [2]);
    WideAppends(k, child);
    WideHeadsAfter(k, child);
    Extend(at, Wide(k), WideOps(k), WideHeads(k), {}, child, Wide(k + 1), WideOps(k + 1), WideHeads(k + 1), {});
  }

  /** Up to 64 children are accepted, and they are the heads. */
  lemma {:induction false} WideIsReached(at: State, k: nat)
    requires Closed(at) && k <= MAX_CAUSAL_PARENTS
    ensures at(Wide(k), WideOps(k), WideHeads(k), {})
  {
    if k == 0 {
      Rooted(at);
      assert WideOps(0) == map[1 := Anchor(), 2 := Revoke(2, 1, [])];
    } else {
      WideIsReached(at, k - 1);
      WideStep(at, k - 1);
    }
  }

  // ----- a sixty-fifth head -----

  function ForeignRoot(): Operation { Revoke(1000, 2, []) }

  function Straddling(): Operation { Revoke(1001, 1, [2, 1000]) }

  /** The widest history, a root of the other space, and a child of both. */
  function Overfull(k: nat): seq<Operation> { Wide(k) + [ForeignRoot()] + [Straddling()] }

  lemma ForeignRootIsReached(at: State, k: nat)
    requires Closed(at) && 1 <= k <= MAX_CAUSAL_PARENTS
    ensures at(Wide(k) + [ForeignRoot()], WideOps(k)[1000 := ForeignRoot()], Children(k), {1000})
  {
    WideIsReached(at, k);
    NoParents(ForeignRoot());
    assert WideOps(k)[1] == WideOp(1);
    RootAppends(WideOps(k), Children(k), {}, ForeignRoot());
    Extend(at, Wide(k), WideOps(k), Children(k), {}, ForeignRoot(),
           Wide(k) + [ForeignRoot()], WideOps(k)[1000 := ForeignRoot()], Children(k), {1000});
  }

  lemma StraddlingParents(k: nat)
    requires k <= MAX_CAUSAL_PARENTS
    ensures ParentSet(Straddling()) == {2, 1000} && {2, 1000} * (Children(k) + {1000}) == {1000}
  {
    assert Straddling().parents[0] == 2 && Straddling().parents[1] == 1000;
  }

  lemma StraddlingAppends(ops: OpMap, k: nat)
    requires 1 <= k <= MAX_CAUSAL_PARENTS && ops == WideOps(k)[1000 := ForeignRoot()]
    ensures Appends(ops, Children(k), {1000}, Straddling())
  {
    StraddlingParents(k);
    ChildrenCount(k);
    assert ops[1] == WideOp(1) && ops[2] == WideOp(2) && ops[1000] == ForeignRoot();
    assert 3 in Children(k);
  }

  lemma StraddlingHeads(k: nat)
    requires k <= MAX_CAUSAL_PARENTS
    ensures HeadsAfter(Children(k), Straddling(), HERE) == Children(k) + {1001}
    ensures HeadsAfter({1000}, Straddling(), THERE) == {}
  {
    StraddlingParents(k);
  }

  lemma OverfullIsReached(at: State, k: nat)
    requires Closed(at) && 1 <= k <= MAX_CAUSAL_PARENTS
    ensures at(Overfull(k), WideOps(k)[1000 := ForeignRoot()][1001 := Straddling()], Children(k) + {1001}, {})
  {
    ForeignRootIsReached(at, k);
    var ops := WideOps(k)[1000 := ForeignRoot()];
    StraddlingAppends(ops, k);
    StraddlingHeads(k);
    Extend(at, Wide(k) + [ForeignRoot()], ops, Children(k), {1000}, Straddling(), Overfull(k), ops[1001 := Straddling()],
           Children(k) + {1001}, {});
  }

  lemma OverfullCount(k: nat)
    requires k <= MAX_CAUSAL_PARENTS
    ensures |Children(k) + {1001}| == k + 1
  {
    ChildrenCount(k);
    assert 1001 !in Children(k);
  }

  lemma OverfullHeads(k: nat)
    requires 1 <= k <= MAX_CAUSAL_PARENTS
    ensures HeadsOf(After(Overfull(k)).graph.derived.heads, HERE) == Children(k) + {1001}
  {
    ReachedIsClosed();
    OverfullIsReached(Reached(), k);
  }

  /** Counterexample: an operation that consumes a head of another space is accepted as the sixty-fifth head. */
  lemma HeadCapCanFail(k: nat)
    requires k == MAX_CAUSAL_PARENTS
    ensures |HeadsOf(After(Overfull(k)).graph.derived.heads, HERE)| == MAX_CAUSAL_PARENTS + 1
  {
    OverfullHeads(k);
    OverfullCount(k);
  }

  // ----- a sender whose log an empty store refuses -----

  /** All children but the last, taken as parents by an operation of the other space. */
  function Collector(k: nat): Operation
    requires k >= 1
  {
    Revoke(2000, 2, seq(k - 1, i requires 0 <= i < k - 1 => i + 3))
  }

  function Latecomer(): Operation { Revoke(2001, 1, [2]) }

  function Narrowed(k: nat): seq<Operation>
    requires k >= 1
  {
    Wide(k) + [Collector(k)] + [Latecomer()]
  }

  lemma CollectorParents(k: nat)
    requires k >= 1
    ensures forall p: nat :: p in ParentSet(Collector(k)) <==> 3 <= p < k + 2
    ensures forall p: nat :: p in Collector(k).parents <==> 3 <= p < k + 2
  {
    var op := Collector(k);
    forall p: nat ensures p in ParentSet(op) <==> 3 <= p < k + 2 {
      if 3 <= p < k + 2 { assert op.parents[p - 3] == p; }
    }
    forall p: nat ensures p in op.parents <==> 3 <= p < k + 2 { ParentSetMembers(op, p); }
  }

  lemma CollectorIsVerified(k: nat)
    requires 1 <= k <= MAX_CAUSAL_PARENTS
    ensures Verified(Collector(k))
  {
    CollectorParents(k);
  }

  lemma CollectorIsLegal(k: nat)
    requires 2 <= k <= MAX_CAUSAL_PARENTS
    ensures LegalNext(WideOps(k), Collector(k)) && forall p | p in Collector(k).parents :: KeyOf(WideOps(k)[p]) == HERE
  {
    var ops, op := WideOps(k), Collector(k);
    CollectorIsVerified(k);
    CollectorParents(k);
    forall p | p in op.parents ensures p in ops && ops[p] == Revoke(p, 1, [2]) { assert ops[p] == WideOp(p); }
    assert ops[1] == WideOp(1);
    assert op.parents[0] == 3;
  }

  lemma CollectorAppends(k: nat)
    requires 2 <= k <= MAX_CAUSAL_PARENTS
    ensures Appends(WideOps(k), Children(k), {}, Collector(k))
  {
    CollectorIsLegal(k);
    forall id | id in WideOps(k) ensures KeyOf(WideOps(k)[id]) != THERE { assert WideOps(k)[id] == WideOp(id); }
  }

  lemma CollectorHeads(k: nat)
    requires 2 <= k <= MAX_CAUSAL_PARENTS
    ensures HeadsAfter(Children(k), Collector(k), HERE) == {k + 2} && HeadsAfter({}, Collector(k), THERE) == {2000}
  {
    CollectorParents(k);
  }

  lemma CollectorIsReached(at: State, k: nat)
    requires Closed(at) && 2 <= k <= MAX_CAUSAL_PARENTS
    ensures at(Wide(k) + [Collector(k)], WideOps(k)[2000 := Collector(k)], {k + 2}, {2000})
  {
    WideIsReached(at, k);
    CollectorAppends(k);
    CollectorHeads(k);
    Extend(at, Wide(k), WideOps(k), Children(k), {}, Collector(k),
           Wide(k) + [Collector(k)], WideOps(k)[2000 := Collector(k)], {k + 2}, {2000});
  }

  lemma LatecomerAppends(k: nat, ops: OpMap)
    requires 2 <= k <= MAX_CAUSAL_PARENTS && ops == WideOps(k)[2000 := Collector(k)]
    ensures Appends(ops, {k + 2}, {2000}, Latecomer())
  {
    OneParent(Latecomer(), 2);
    assert ops[2] == WideOp(2) && ops[1] == WideOp(1);
    ChildIsLegal(ops, 2001);
    assert {2} * ({k + 2} + {2000}) == {};
  }

  ghost function NarrowedOps(k: nat): OpMap
    requires k >= 1
  {
    WideOps(k)[2000 := Collector(k)][2001 := Latecomer()]
  }

  /** The store after the latecomer, which is its last entry. */
  lemma NarrowedState(k: nat)
    requires 2 <= k <= MAX_CAUSAL_PARENTS
    ensures
      var db := After(Narrowed(k));
      && Plain(db) && Ops(db.graph.log) == NarrowedOps(k)
      && db.graph.log != [] && db.graph.log[|db.graph.log| - 1].op == Latecomer()
  {
    ReachedIsClosed();
    CollectorIsReached(Reached(), k);
    var list, ops := Wide(k) + [Collector(k)], WideOps(k)[2000 := Collector(k)];
    LatecomerAppends(k, ops);
    Append(list, ops, {k + 2}, {2000}, Latecomer());
    LastIsAppended(list, ops, {k + 2}, {2000}, Latecomer());
  }

  lemma LastIsAppended(list: seq<Operation>, ops: OpMap, here: set<OperationId>, there: set<OperationId>, op: Operation)
    requires At(list, ops, here, there) && Appends(ops, here, there, op)
    ensures
      var log := After(list + [op]).graph.log;
      log != [] && log[|log| - 1].op == op
  {
    var db := After(list);
    AppendsWithinCap(ops, db.graph.derived.heads, here, there, op);
    AcceptedInto(db, op);
    AdmitAppends(db.graph, op, 0, true);
    AfterSnoc(list, op);
  }

  lemma NarrowedRemains(k: nat)
    requires 2 <= k <= MAX_CAUSAL_PARENTS
    ensures Remaining(NarrowedOps(k), 2) == WideOps(k)[2001 := Latecomer()]
  {
    var ops := NarrowedOps(k);
    forall id | id in WideOps(k) ensures ops[id] == WideOp(id) && ops[id].space == 1 { }
  }

  lemma NarrowedDetaches(k: nat)
    requires 2 <= k <= MAX_CAUSAL_PARENTS
    ensures Detached(NarrowedOps(k), 2) && Remaining(NarrowedOps(k), 2) == WideOps(k)[2001 := Latecomer()]
  {
    var ops := NarrowedOps(k);
    NarrowedRemains(k);
    forall id | id in ops && ops[id].space != 2
      ensures forall p | p in ops[id].parents && p in ops :: ops[p].space != 2
      ensures forall a | a in ops[id].authorization && a in ops :: ops[a].space != 2
    {
      assert id in Remaining(ops, 2);
      assert id == 2001 || ops[id] == WideOp(id);
      assert ops[1].space == 1 && ops[2].space == 1;
    }
  }

  lemma WideExact(k: nat) returns (heads: map<OperationId, HeadRow>)
    requires 1 <= k <= MAX_CAUSAL_PARENTS
    ensures HeadsExact(WideOps(k), heads) && HeadsAt(heads, Children(k), {})
  {
    ReachedIsClosed();
    WideIsReached(Reached(), k);
    heads := After(Wide(k)).graph.derived.heads;
  }

  lemma WideOpen(k: nat)
    requires 1 <= k <= MAX_CAUSAL_PARENTS
    ensures OpenOf(WideOps(k), HERE) == Children(k) && OpenParents(WideOps(k), Latecomer()) == {2} * (Children(k) + {})
  {
    var heads := WideExact(k);
    OneParent(Latecomer(), 2);
    assert WideOps(k)[2] == WideOp(2);
    OpenByHeads(WideOps(k), heads, Children(k), {}, Latecomer());
  }

  /** With nobody in the way, the latecomer would be a sixty-fifth head. */
  lemma LatecomerIsOverCap(k: nat)
    requires k == MAX_CAUSAL_PARENTS
    ensures !WithinCap(WideOps(k), Latecomer())
  {
    WideOpen(k);
    ChildrenGrow(k);
    assert {2} * (Children(k) + {}) == {};
    ChildrenCount(k);
  }

  lemma KeptLast(log: seq<Entry>, space: SpaceId)
    requires LegalLog(log) && log != [] && log[|log| - 1].op.space != space
    requires !WithinCap(Remaining(Ops(log[..|log| - 1]), space), log[|log| - 1].op)
    ensures !CappedLog(Keep(log, space))
  {
    var init, last := log[..|log| - 1], log[|log| - 1];
    OpsKeep(init, space);
    var kept := Keep(init, space);
    assert Keep(log, space) == kept + [last] && (kept + [last])[..|kept|] == kept;
  }

  lemma NarrowedBefore(k: nat, log: seq<Entry>)
    requires 2 <= k <= MAX_CAUSAL_PARENTS && LegalLog(log) && log != [] && log[|log| - 1].op == Latecomer()
    requires Ops(log) == NarrowedOps(k)
    ensures Remaining(Ops(log[..|log| - 1]), 2) == WideOps(k)
  {
    BeforeLatecomer(k, Ops(log[..|log| - 1]));
  }

  lemma BeforeLatecomer(k: nat, before: OpMap)
    requires 2 <= k <= MAX_CAUSAL_PARENTS && 2001 !in before && NarrowedOps(k) == before[2001 := Latecomer()]
    ensures Remaining(before, 2) == WideOps(k)
  {
    RemainingAdd(before, Latecomer(), 2);
    NarrowedDetaches(k);
    assert Remaining(before, 2)[2001 := Latecomer()] == WideOps(k)[2001 := Latecomer()];
    WithoutKey(Remaining(before, 2), WideOps(k), 2001, Latecomer());
  }

  lemma WithoutKey(one: OpMap, two: OpMap, id: OperationId, op: Operation)
    requires id !in one && id !in two && one[id := op] == two[id := op]
    ensures one == two
  {
    forall k | k in one ensures k in two && two[k] == one[k] { assert k in two[id := op] && one[id := op][k] == one[k]; }
    forall k | k in two ensures k in one { assert k in one[id := op]; }
  }

  /** Deleting the other space is accepted and leaves a log that is no longer capped. */
  lemma DeletionCanUncap(k: nat)
    requires k == MAX_CAUSAL_PARENTS
    ensures
      var after := Next(After(Narrowed(k)), DeleteStep(2));
      && Apply(After(Narrowed(k)), DeleteStep(2)).Ok? && !CappedLog(after.graph.log) && LegalLog(after.graph.log)
      && after.outbox == EMPTY_OUTBOX && (forall e | e in after.graph.log :: e.storedAt == 0)
  {
    var db := After(Narrowed(k));
    NarrowedState(k);
    NarrowedDetaches(k);
    NarrowedBefore(k, db.graph.log);
    LatecomerIsOverCap(k);
    KeptLast(db.graph.log, 2);
    DeletedLog(db, 2);
  }

  lemma DeletedLog(db: Database, space: SpaceId)
    requires Plain(db) && Detached(Ops(db.graph.log), space)
    ensures Apply(db, DeleteStep(space)).Ok? && Next(db, DeleteStep(space)).graph.log == Keep(db.graph.log, space)
    ensures LegalLog(Keep(db.graph.log, space)) && Next(db, DeleteStep(space)).outbox == EMPTY_OUTBOX
    ensures forall e | e in Keep(db.graph.log, space) :: e.storedAt == 0
  {
    DeleteSucceedsExactly(db.graph, space);
    DeleteStepIs(db, space);
    KeepIsLegal(db.graph.log, space);
    forall e | e in Keep(db.graph.log, space) ensures e.storedAt == 0 { KeepMembers(db.graph.log, space, e); }
  }

  // ----- queueing that log for a peer -----

  function Unscoped(): Peer { Peer("x", true, true, false, None, 0) }

  function FailingSteps(k: nat): seq<Step>
    requires k >= 1
  {
    Commits(Narrowed(k)) + [DeleteStep(2)] + [PeerStep(9, Unscoped())] + [EnableStep(9, true)]
  }

  lemma {:induction false} StoredAtZero(log: seq<Entry>, id: OperationId)
    requires forall e | e in log :: e.storedAt == 0
    ensures StoredAt(log, id) == 0
    decreases |log|
  {
    if log != [] {
      assert log[|log| - 1] in log;
      StoredAtZero(log[..|log| - 1], id);
    }
  }

  ghost predicate AllQueued(o: Outbox, log: seq<Entry>) {
    && 9 in o.peers && o.peers[9] == Unscoped() && o.peerSpaces == map[]
    && (forall k | k in o.deliveries :: o.deliveries[k] == Queued(0))
  }

  lemma PeerQueues(db: Database)
    requires db.outbox == EMPTY_OUTBOX
    ensures AllQueued(Next(db, PeerStep(9, Unscoped())).outbox, db.graph.log)
    ensures Next(db, PeerStep(9, Unscoped())).graph == db.graph
  {
  }

  lemma EnabledRows(o: Outbox, log: seq<Entry>, i: nat)
    requires AllQueued(o, log) && (forall e | e in log :: e.storedAt == 0) && i < |log|
    ensures SetPeerEnabled(o, log, 9, true).Ok?
    ensures
      var next := SetPeerEnabled(o, log, 9, true).value;
      (9, log[i].op.id) in next.deliveries && next.deliveries[(9, log[i].op.id)] == Queued(0)
  {
    var stored := o.(peers := o.peers[9 := o.peers[9].(enabled := true)]);
    forall id ensures StoredAt(log, id) == 0 { StoredAtZero(log, id); }
    assert log[i] in log && InScope(stored, 9, log[i].op.space);
  }

  lemma EnableStepIs(db: Database)
    requires SetPeerEnabled(db.outbox, db.graph.log, 9, true).Ok?
    ensures Next(db, EnableStep(9, true)).graph == db.graph
    ensures Next(db, EnableStep(9, true)).outbox == SetPeerEnabled(db.outbox, db.graph.log, 9, true).value
  {
  }

  lemma EnableQueues(db: Database)
    requires AllQueued(db.outbox, db.graph.log) && forall e | e in db.graph.log :: e.storedAt == 0
    ensures Next(db, EnableStep(9, true)).graph == db.graph
    ensures Forwarding.AllDue(Next(db, EnableStep(9, true)), 9, 0)
  {
    EnableStepIs(db);
    var log, next := db.graph.log, Next(db, EnableStep(9, true)).outbox;
    forall i | 0 <= i < |log|
      ensures (9, log[i].op.id) in next.deliveries && next.deliveries[(9, log[i].op.id)] == Queued(0)
    {
      EnabledRows(db.outbox, log, i);
    }
  }

  /** Counterexample: a reachable store with every row due whose log an empty store refuses at the head cap. */
  lemma ForwardingCanFail(k: nat, ticks: seq<Forwarding.Tick>, limit: nat)
    requires k == MAX_CAUSAL_PARENTS && Forwarding.GoodTicks(ticks, 0) && 1 <= limit <= MAX_OUTBOX_BATCH
    requires |ticks| * limit >= |Run(EMPTY_DATABASE, FailingSteps(k)).graph.log|
    ensures
      var sender := Run(EMPTY_DATABASE, FailingSteps(k));
      && Forwarding.AllDue(sender, 9, 0) && Forwarding.Unused(EMPTY_DATABASE)
      && Forwarding.Rounds(Forwarding.Link(sender, EMPTY_DATABASE), 9, ticks, limit, Remote).Err?
  {
    FailingState(k);
    EmptyIsExact();
    Forwarding.DrainedReceiver(FailingSteps(k), EMPTY_DATABASE, 9, 0, ticks, limit, Remote);
  }

  lemma FailingState(k: nat)
    requires k == MAX_CAUSAL_PARENTS
    ensures
      var sender := Run(EMPTY_DATABASE, FailingSteps(k));
      Forwarding.AllDue(sender, 9, 0) && !CappedLog(sender.graph.log)
  {
    DeletionCanUncap(k);
    var steps := Commits(Narrowed(k));
    var deleted := Next(After(Narrowed(k)), DeleteStep(2));
    RunSnoc(steps, DeleteStep(2));
    RunSnoc(steps + [DeleteStep(2)], PeerStep(9, Unscoped()));
    RunSnoc(steps + [DeleteStep(2)] + [PeerStep(9, Unscoped())], EnableStep(9, true));
    PeerQueues(deleted);
    EnableQueues(Next(deleted, PeerStep(9, Unscoped())));
  }
}
