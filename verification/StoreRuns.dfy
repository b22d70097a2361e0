/** What holds of the operation graph after every run of the client store. */
module StoreRuns {
  import opened Wrappers
  import opened Operations
  import opened OperationGraph
  import opened GraphInvariants
  import opened EntityHistories
  import opened MediaTransfers
  import opened ClientDatabase

  // ----- heads over runs with deletions -----

  /** No accepted deletion strips the last child of an operation it leaves behind. */
  ghost predicate CleanStep(db: Database, step: Step) {
    step.DeleteStep? && Apply(db, step).Ok? ==> LeavesNoHiddenHead(Ops(db.graph.log), step.space)
  }

  ghost predicate CleanRun(db: Database, steps: seq<Step>)
    decreases |steps|
  {
    steps == [] || (CleanStep(db, steps[0]) && CleanRun(Next(db, steps[0]), steps[1..]))
  }

  ghost predicate Exact(db: Database) { HeadsExact(Ops(db.graph.log), db.graph.derived.heads) }

  /** One step keeps the heads exact if and only if it is not a deletion that hides a head. */
  lemma NextKeepsExact(db: Database, step: Step)
    requires DatabaseInv(db) && Exact(db)
    ensures Exact(Next(db, step)) <==> CleanStep(db, step)
  {
    GraphMoves(db, step);
    if MoveOf(db, step).Deleted? {
      DeleteIsExactWhenClean(db.graph, step.space);
    } else {
      MoveKeepsExact(db, step);
    }
  }

  lemma DeleteIsExactWhenClean(g: Graph, space: SpaceId)
    requires Inv(g) && HeadsExact(Ops(g.log), g.derived.heads) && DeleteSpace(g, space).Ok?
    ensures
      var next := DeleteSpace(g, space).value;
      HeadsExact(Ops(next.log), next.derived.heads) <==> LeavesNoHiddenHead(Ops(g.log), space)
  {
    DeleteKeepsInv(g, space);
  }

  lemma MoveKeepsExact(db: Database, step: Step)
    requires Inv(db.graph) && Exact(db) && !MoveOf(db, step).Deleted?
    ensures Exact(Next(db, step))
  {
    GraphMoves(db, step);
    match MoveOf(db, step)
    case Unmoved =>
    case Admitted(op, at, local) => AdmitKeepsInv(db.graph, op, at, local);
    case Rebuilt => RebuildRepresents(db.graph.log);
  }

  lemma {:induction false} CleanRunKeepsExact(db: Database, steps: seq<Step>)
    requires DatabaseInv(db) && Exact(db) && CleanRun(db, steps)
    ensures Exact(Run(db, steps))
    decreases |steps|
  {
    if steps != [] {
      NextKeepsInv(db, steps[0]);
      NextKeepsExact(db, steps[0]);
      CleanRunKeepsExact(Next(db, steps[0]), steps[1..]);
    }
  }

  lemma EmptyIsExact()
    ensures DatabaseInv(EMPTY_DATABASE) && Exact(EMPTY_DATABASE)
  {
  }

  /** In every reachable state a rebuild succeeds and touches nothing but the heads; it changes nothing at all
      exactly when the heads are the operations nobody names. */
  lemma RebuildIsReplay(steps: seq<Step>)
    ensures
      var db := Run(EMPTY_DATABASE, steps);
      && Apply(db, RebuildStep).Ok?
      && (var rebuilt := Apply(db, RebuildStep).value;
          && rebuilt == db.(graph := db.graph.(derived := db.graph.derived.(heads := rebuilt.graph.derived.heads)))
          && Exact(rebuilt)
          && (rebuilt == db <==> Exact(db)))
    ensures CleanRun(EMPTY_DATABASE, steps) ==>
              Apply(Run(EMPTY_DATABASE, steps), RebuildStep) == Ok(Run(EMPTY_DATABASE, steps))
  {
    EmptyIsExact();
    RunKeepsInv(EMPTY_DATABASE, steps);
    RebuildTouchesHeads(Run(EMPTY_DATABASE, steps));
    if CleanRun(EMPTY_DATABASE, steps) { CleanRunKeepsExact(EMPTY_DATABASE, steps); }
  }

  lemma RebuildTouchesHeads(db: Database)
    requires Inv(db.graph)
    ensures
      && Apply(db, RebuildStep).Ok?
      && (var rebuilt := Apply(db, RebuildStep).value;
          && rebuilt == db.(graph := db.graph.(derived := db.graph.derived.(heads := rebuilt.graph.derived.heads)))
          && Exact(rebuilt)
          && (rebuilt == db <==> Exact(db)))
  {
    RebuildReproducesTables(db.graph);
    RebuildIsExact(db.graph.log);
    RebuildStepIs(db);
    RebuildApplies(db);
  }

  lemma RebuildIsExact(log: seq<Entry>)
    requires LegalLog(log)
    ensures Rebuild(log).Ok? && HeadsExact(Ops(log), Rebuild(log).value.heads)
  {
    RebuildRepresents(log);
  }

  lemma RebuildApplies(db: Database)
    requires Rebuild(db.graph.log).Ok?
    ensures Apply(db, RebuildStep) == Ok(Next(db, RebuildStep))
  {
  }

  // ----- every stored operation was appended to a headed history -----

  ghost predicate HeadedStore(db: Database) {
    HeadedLog(db.graph.log) && HeadsOpen(Ops(db.graph.log), db.graph.derived.heads)
  }

  lemma NextKeepsHeaded(db: Database, step: Step)
    requires DatabaseInv(db) && HeadedStore(db)
    ensures HeadedStore(Next(db, step))
  {
    GraphMoves(db, step);
    match MoveOf(db, step)
    case Unmoved =>
    case Admitted(op, at, local) => AdmitKeepsHeaded(db.graph, op, at, local);
    case Deleted(space) => DeleteKeepsHeaded(db.graph, space);
    case Rebuilt => RebuildIsExact(db.graph.log);
  }

  lemma {:induction false} RunKeepsHeaded(db: Database, steps: seq<Step>)
    requires DatabaseInv(db) && HeadedStore(db)
    ensures HeadedStore(Run(db, steps))
    decreases |steps|
  {
    if steps != [] {
      NextKeepsHeaded(db, steps[0]);
      NextKeepsInv(db, steps[0]);
      RunKeepsHeaded(Next(db, steps[0]), steps[1..]);
    }
  }

  // ----- convergence -----

  /** Operations whose commits the run accepted. */
  ghost function Accepted(db: Database, steps: seq<Step>): set<Operation>
    decreases |steps|
  {
    if steps == [] then {}
    else
      (if steps[0].CommitStep? && Apply(db, steps[0]).Ok? then {steps[0].op} else {})
      + Accepted(Next(db, steps[0]), steps[1..])
  }

  ghost predicate DeletesNothing(steps: seq<Step>) { forall s | s in steps :: !s.DeleteStep? }

  ghost predicate Stored(db: Database, op: Operation) { op.id in Ops(db.graph.log) && Ops(db.graph.log)[op.id] == op }

  lemma NextStores(db: Database, step: Step, op: Operation)
    requires DatabaseInv(db) && !step.DeleteStep?
    ensures Stored(Next(db, step), op) <==> Stored(db, op) || (step.CommitStep? && Apply(db, step).Ok? && step.op == op)
  {
    if step.CommitStep? && Apply(db, step).Ok? {
      CommitStores(db, step.op, step.at, step.source);
    } else {
      GraphMoves(db, step);
    }
  }

  lemma {:induction false} RunStoresAccepted(db: Database, steps: seq<Step>, op: Operation)
    requires DatabaseInv(db) && DeletesNothing(steps)
    ensures Stored(Run(db, steps), op) <==> Stored(db, op) || op in Accepted(db, steps)
    decreases |steps|
  {
    if steps != [] {
      NextStores(db, steps[0], op);
      NextKeepsInv(db, steps[0]);
      RunStoresAccepted(Next(db, steps[0]), steps[1..], op);
    }
  }

  lemma {:induction false} WithoutDeletionsClean(db: Database, steps: seq<Step>)
    requires DeletesNothing(steps)
    ensures CleanRun(db, steps)
    decreases |steps|
  {
    if steps != [] { WithoutDeletionsClean(Next(db, steps[0]), steps[1..]); }
  }

  lemma StoredDetermines(db: Database, other: Database)
    requires DatabaseInv(db) && DatabaseInv(other)
    requires forall op :: Stored(db, op) <==> Stored(other, op)
    ensures Ops(db.graph.log) == Ops(other.graph.log)
  {
    var a, b := Ops(db.graph.log), Ops(other.graph.log);
    forall id | id in a ensures id in b && b[id] == a[id] { LegalIds(db.graph.log, id); assert Stored(db, a[id]); }
    forall id | id in b ensures id in a { LegalIds(other.graph.log, id); assert Stored(other, b[id]); }
  }

  /** Convergence: two stores that accepted the same operations, in any two orders, from any sources and between any
      other steps, agree on edges, heads, visibility and projections. */
  lemma Convergence(one: seq<Step>, two: seq<Step>)
    requires DeletesNothing(one) && DeletesNothing(two)
    requires Accepted(EMPTY_DATABASE, one) == Accepted(EMPTY_DATABASE, two)
    ensures Run(EMPTY_DATABASE, one).graph.derived == Run(EMPTY_DATABASE, two).graph.derived
  {
    var a, b := Run(EMPTY_DATABASE, one), Run(EMPTY_DATABASE, two);
    EmptyIsExact();
    forall op ensures Stored(a, op) <==> Stored(b, op) {
      RunStoresAccepted(EMPTY_DATABASE, one, op);
      RunStoresAccepted(EMPTY_DATABASE, two, op);
    }
    ReachableIsExact(one);
    ReachableIsExact(two);
    StoredDetermines(a, b);
    SameOperationsSameTables(a.graph, b.graph);
  }

  lemma ReachableIsExact(steps: seq<Step>)
    requires DeletesNothing(steps)
    ensures DatabaseInv(Run(EMPTY_DATABASE, steps)) && Exact(Run(EMPTY_DATABASE, steps))
  {
    EmptyIsExact();
    RunKeepsInv(EMPTY_DATABASE, steps);
    WithoutDeletionsClean(EMPTY_DATABASE, steps);
    CleanRunKeepsExact(EMPTY_DATABASE, steps);
  }

  /** The same with deletions and rebuilds on either side: two stores with equal surviving operations agree on edges,
      visibility and projections, and on the heads too wherever both are exact; and a rebuild makes them so. */
  lemma ConvergenceAfterDeletions(one: seq<Step>, two: seq<Step>)
    requires Ops(Run(EMPTY_DATABASE, one).graph.log) == Ops(Run(EMPTY_DATABASE, two).graph.log)
    ensures
      var a, b := Run(EMPTY_DATABASE, one), Run(EMPTY_DATABASE, two);
      && a.graph.derived == b.graph.derived.(heads := a.graph.derived.heads)
      && (Exact(a) ==> (a.graph.derived == b.graph.derived <==> Exact(b)))
      && Next(a, RebuildStep).graph.derived == Next(b, RebuildStep).graph.derived
  {
    var a, b := Run(EMPTY_DATABASE, one), Run(EMPTY_DATABASE, two);
    EmptyIsExact();
    RunKeepsInv(EMPTY_DATABASE, one);
    RunKeepsInv(EMPTY_DATABASE, two);
    RebuiltAgree(a, b);
  }

  lemma RebuiltAgree(a: Database, b: Database)
    requires DatabaseInv(a) && DatabaseInv(b) && Ops(a.graph.log) == Ops(b.graph.log)
    ensures a.graph.derived == b.graph.derived.(heads := a.graph.derived.heads)
    ensures Exact(a) ==> (a.graph.derived == b.graph.derived <==> Exact(b))
    ensures Next(a, RebuildStep).graph.derived == Next(b, RebuildStep).graph.derived
  {
    RebuildTouchesHeads(a);
    RebuildTouchesHeads(b);
    RebuildApplies(a);
    RebuildApplies(b);
    NextKeepsInv(a, RebuildStep);
    NextKeepsInv(b, RebuildStep);
    SameOperationsSameTables(Next(a, RebuildStep).graph, Next(b, RebuildStep).graph);
  }

  // ----- entity histories -----

  /** The committed operation names only parents of its own space; the store does not check this itself. */
  ghost predicate LocalStep(db: Database, step: Step) {
    step.CommitStep? ==>
      forall p | p in step.op.parents && p in Ops(db.graph.log) :: Ops(db.graph.log)[p].space == step.op.space
  }

  ghost predicate LocalRun(db: Database, steps: seq<Step>)
    decreases |steps|
  {
    steps == [] || (LocalStep(db, steps[0]) && LocalRun(Next(db, steps[0]), steps[1..]))
  }

  ghost predicate HistoriesInv(db: Database) {
    DatabaseInv(db) && Exact(db) && SpaceLocal(Ops(db.graph.log)) && CappedLog(db.graph.log)
  }

  lemma AdmitKeepsLocal(ops: OpMap, op: Operation)
    requires SpaceLocal(ops) && op.id !in ops && op.id !in op.parents
    requires forall id | id in ops :: op.id !in ops[id].parents
    requires forall p | p in op.parents && p in ops :: ops[p].space == op.space
    ensures SpaceLocal(ops[op.id := op])
  {
  }

  lemma NextKeepsHistories(db: Database, step: Step)
    requires HistoriesInv(db) && LocalStep(db, step)
    ensures HistoriesInv(Next(db, step))
  {
    var ops := Ops(db.graph.log);
    NextKeepsInv(db, step);
    MoveKeepsInv(db, step);
    GraphMoves(db, step);
    match MoveOf(db, step)
    case Unmoved =>
    case Admitted(op, at, local) =>
      AdmitKeepsInv(db.graph, op, at, local);
      AdmitKeepsCap(db.graph, op, at, local);
      FreshIsUnnamed(db.graph.log, op.id);
      forall id | id in ops ensures op.id !in ops[id].parents { assert !Names(ops, id, op.id); }
      AdmitKeepsLocal(ops, op);
    case Deleted(space) =>
      SpaceLocalLeavesNoHiddenHead(ops, space);
      DeleteKeepsInv(db.graph, space);
      KeepIsCapped(db.graph.log, space);
    case Rebuilt =>
      RebuildReproducesTables(db.graph);
  }

  lemma {:induction false} RunKeepsHistories(db: Database, steps: seq<Step>)
    requires HistoriesInv(db) && LocalRun(db, steps)
    ensures HistoriesInv(Run(db, steps))
    decreases |steps|
  {
    if steps != [] {
      NextKeepsHistories(db, steps[0]);
      RunKeepsHistories(Next(db, steps[0]), steps[1..]);
    }
  }

  lemma ReachableHistories(steps: seq<Step>)
    requires LocalRun(EMPTY_DATABASE, steps)
    ensures HistoriesInv(Run(EMPTY_DATABASE, steps))
  {
    EmptyIsExact();
    assert HistoriesInv(EMPTY_DATABASE);
    RunKeepsHistories(EMPTY_DATABASE, steps);
  }

  /** After every run with any parents, an entity with a client operation has exactly one root, and every visibility
      declared in its history is the one its root declared. */
  lemma ClientHistoryInvariant(steps: seq<Step>, id: OperationId) returns (root: OperationId)
    requires
      var ops := Ops(Run(EMPTY_DATABASE, steps).graph.log);
      id in ops && IsClientSchema(ops[id].schema)
    ensures
      var ops := Ops(Run(EMPTY_DATABASE, steps).graph.log);
      IsClientRootOf(ops, KeyOf(ops[id]), root)
  {
    EmptyIsExact();
    RunKeepsInv(EMPTY_DATABASE, steps);
    var log := Run(EMPTY_DATABASE, steps).graph.log;
    LegalIds(log, id);
    root := OneRootOneVisibility(log, id);
  }

  /** After every run that commits space-local parents: heads are the operations nobody names, and every nonempty
      history has one root, one schema, one visibility, and between one and 64 heads. */
  lemma DagInvariant(steps: seq<Step>, key: Key)
    requires LocalRun(EMPTY_DATABASE, steps)
    ensures
      var g := Run(EMPTY_DATABASE, steps).graph;
      && (forall id :: id in g.derived.heads <==> Open(Ops(g.log), id))
      && |HeadsOf(g.derived.heads, key)| <= MAX_CAUSAL_PARENTS
      && (!HistoryEmpty(Ops(g.log), key) ==>
            HeadsOf(g.derived.heads, key) != {} && exists root :: IsRootOf(Ops(g.log), key, root))
  {
    ReachableHistories(steps);
    var g := Run(EMPTY_DATABASE, steps).graph;
    HeadCountBounded(g.log, key);
    HeadsAreOpen(Ops(g.log), g.derived.heads, key);
    if !HistoryEmpty(Ops(g.log), key) {
      var root := OneRootOneSchemaOneVisibility(g.log, key);
    }
  }

  /** After every run, an operation's parents and authorizations carry smaller local sequences. */
  lemma ReferencesHaveSmallerSequences(steps: seq<Step>, k: nat, r: OperationId) returns (i: nat)
    requires k < |Run(EMPTY_DATABASE, steps).graph.log|
    requires
      var op := Run(EMPTY_DATABASE, steps).graph.log[k].op;
      r in op.parents || r in op.authorization
    ensures
      var log := Run(EMPTY_DATABASE, steps).graph.log;
      i < k && log[i].op.id == r && log[i].sequence < log[k].sequence
  {
    EmptyIsExact();
    RunKeepsInv(EMPTY_DATABASE, steps);
    i := ReferencesComeEarlier(Run(EMPTY_DATABASE, steps).graph, k, r);
  }

  /** After every run the media-transfer queue is well formed. */
  lemma MediaInvariant(steps: seq<Step>, k: TransferKey)
    requires k in Run(EMPTY_DATABASE, steps).media.transfers
    ensures
      var m := Run(EMPTY_DATABASE, steps).media;
      && k.content in m.resources
      && (var t, r := m.transfers[k], m.resources[k.content];
          && (t.state.WaitingLocal? ==> k.direction.Upload? && !r.locallyAvailable)
          && (k.direction.Download? && r.locallyAvailable ==> t.state.Complete?)
          && (t.state.Complete? ==> t.transferredBytes == r.byteLength)
          && t.transferredBytes <= r.byteLength
          && (t.state.TransferLeased? <==> t.leaseId.Some?)
          && (t.state.TransferLeased? <==> t.leaseExpiresAt.Some?))
  {
    EmptyIsExact();
    RunKeepsInv(EMPTY_DATABASE, steps);
  }
}
