/** The client store as it runs: loops over rows inside transactions that commit whole or not at all. */
module ClientStore {
  import opened Wrappers
  import opened Operations
  import opened OperationGraph
  import opened GraphInvariants
  import opened Outbox
  import opened MediaTransfers
  import opened ClientDatabase
  import opened DeliveryBatches

  // ----- validation -----

  method ValidateReferences(log: seq<Entry>, op: Operation) returns (r: Result<(), StoreError>)
    ensures r == CheckReferences(log, op)
  {
    var i := 0;
    while i < |op.parents|
      invariant 0 <= i <= |op.parents|
      invariant FirstMissing(log, op.parents) == FirstMissing(log, op.parents[i..])
    {
      if op.parents[i] !in Ops(log) { return Err(MissingParent(op.parents[i])); }
      i := i + 1;
    }
    i := 0;
    while i < |op.authorization|
      invariant 0 <= i <= |op.authorization|
      invariant FirstMissing(log, op.authorization) == FirstMissing(log, op.authorization[i..])
    {
      if op.authorization[i] !in Ops(log) { return Err(MissingAuthorization(op.authorization[i])); }
      i := i + 1;
    }
    return Ok(());
  }

  method CountConsumed(heads: map<OperationId, HeadRow>, parents: seq<OperationId>) returns (count: nat)
    ensures count == CountHeads(heads, parents)
  {
    count := 0;
    var i := 0;
    while i < |parents|
      invariant 0 <= i <= |parents|
      invariant count + CountHeads(heads, parents[i..]) == CountHeads(heads, parents)
    {
      if parents[i] in heads { count := count + 1; }
      assert parents[i..][1..] == parents[i + 1..];
      i := i + 1;
    }
  }

  method ValidateTopology(g: Graph, op: Operation) returns (r: Result<(), StoreError>)
    ensures r == CheckTopology(g, op)
  {
    var i := 0;
    while i < |op.parents|
      invariant 0 <= i <= |op.parents|
      invariant FirstMismatch(g.log, op, op.parents) == FirstMismatch(g.log, op, op.parents[i..])
    {
      var parent := op.parents[i];
      if parent in Ops(g.log) && (Ops(g.log)[parent].entity != op.entity || Ops(g.log)[parent].schema != op.schema) {
        return Err(ParentMismatch(parent));
      }
      i := i + 1;
    }
    var history, heads := |History(g.log, KeyOf(op))|, |HeadsOf(g.derived.heads, KeyOf(op))|;
    if history > 0 && heads == 0 { return Err(Corrupt); }
    if history > 0 && op.parents == [] { return Err(EntityAlreadyExists); }
    if history == 0 && op.body.Tombstone? { return Err(InitialTombstone); }
    var consumed := CountConsumed(g.derived.heads, op.parents);
    if heads - consumed + 1 > MAX_CAUSAL_PARENTS { return Err(TooManyHeads); }
    return Ok(());
  }

  // ----- graph rows -----

  function EdgesUpTo(child: OperationId, targets: seq<OperationId>, n: nat): set<Edge>
    requires n <= |targets|
  {
    set i | 0 <= i < n :: Edge(child, targets[i], i)
  }

  function IdsUpTo(ids: seq<OperationId>, n: nat): set<OperationId>
    requires n <= |ids|
  {
    set i | 0 <= i < n :: ids[i]
  }

  lemma EdgesGrow(child: OperationId, targets: seq<OperationId>, n: nat)
    requires n < |targets|
    ensures EdgesUpTo(child, targets, n + 1) == EdgesUpTo(child, targets, n) + {Edge(child, targets[n], n)}
    ensures IdsUpTo(targets, n + 1) == IdsUpTo(targets, n) + {targets[n]}
  {
  }

  /** Adds the parent edges, drops each named head, adds the authorization edges, then makes the operation a head. */
  method InsertGraphRows(d: Derived, op: Operation) returns (next: Derived)
    ensures next == InsertGraph(d, op)
  {
    next := d;
    var i := 0;
    while i < |op.parents|
      invariant 0 <= i <= |op.parents|
      invariant next == d.(parents := d.parents + EdgesUpTo(op.id, op.parents, i), heads := d.heads - IdsUpTo(op.parents, i))
    {
      EdgesGrow(op.id, op.parents, i);
      next := next.(parents := next.parents + {Edge(op.id, op.parents[i], i)}, heads := next.heads - {op.parents[i]});
      i := i + 1;
    }
    i := 0;
    while i < |op.authorization|
      invariant 0 <= i <= |op.authorization|
      invariant next == d.(parents := d.parents + EdgesUpTo(op.id, op.parents, |op.parents|),
                           authorizations := d.authorizations + EdgesUpTo(op.id, op.authorization, i),
                           heads := d.heads - IdsUpTo(op.parents, |op.parents|))
    {
      EdgesGrow(op.id, op.authorization, i);
      next := next.(authorizations := next.authorizations + {Edge(op.id, op.authorization[i], i)});
      i := i + 1;
    }
    assert EdgesUpTo(op.id, op.parents, |op.parents|) == ParentEdges(op);
    assert EdgesUpTo(op.id, op.authorization, |op.authorization|) == AuthorizationEdges(op);
    assert IdsUpTo(op.parents, |op.parents|) == ParentSet(op);
    next := next.(heads := next.heads[op.id := HeadRowOf(op)]);
  }

  method DeriveRows(d: Derived, op: Operation) returns (r: Result<Derived, StoreError>)
    ensures r == Derive(d, op)
  {
    var graphRows := InsertGraphRows(d, op);
    r := InsertProjection(graphRows, op);
  }

  lemma {:induction false} RebuildStops(log: seq<Entry>, n: nat)
    requires n <= |log| && Rebuild(log[..n]).Err?
    ensures Rebuild(log) == Rebuild(log[..n])
    decreases |log|
  {
    if n < |log| {
      assert log[..|log| - 1][..n] == log[..n];
      RebuildStops(log[..|log| - 1], n);
    } else {
      assert log[..n] == log;
    }
  }

  method Replay(log: seq<Entry>) returns (r: Result<Derived, StoreError>)
    ensures r == Rebuild(log)
  {
    var d := EMPTY_DERIVED;
    var i := 0;
    while i < |log|
      invariant 0 <= i <= |log|
      invariant Rebuild(log[..i]) == Ok(d)
    {
      assert log[..i + 1][..i] == log[..i];
      r := DeriveRows(d, log[i].op);
      if r.Err? {
        RebuildStops(log, i + 1);
        return;
      }
      d := r.value;
      i := i + 1;
    }
    assert log[..|log|] == log;
    return Ok(d);
  }

  // ----- resources -----

  method InsertResources(m: Media, op: Operation, at: int) returns (r: Result<Media, StoreError>)
    ensures r == Discover(m, op, at, 0)
  {
    var next := m;
    var resources := Resources(op.body);
    var i := 0;
    while i < |resources|
      invariant 0 <= i <= |resources|
      invariant Discover(m, op, at, 0) == Discover(next, op, at, i)
    {
      var ref := resources[i];
      if ref.contentId !in next.resources {
        next := next.(resources := next.resources[ref.contentId := Resource(ref.byteLength, false, false, at, None)]);
      }
      if next.resources[ref.contentId].byteLength != ref.byteLength { return Err(ResourceDescriptorConflict); }
      next := next.(links := next.links + {ResourceLink(op.id, i, ref.contentId)});
      i := i + 1;
    }
    return Ok(next);
  }

  lemma {:induction false} RemoteQueuesNothing(m: Media, o: Outbox, log: seq<Entry>, op: Operation, at: int, from: nat)
    ensures ApplyResources(m, o, log, op, at, Remote, from) == Ok(m)
    decreases |Resources(op.body)| - from
  {
    if from < |Resources(op.body)| { RemoteQueuesNothing(m, o, log, op, at, from + 1); }
  }

  method QueueResources(m: Media, o: Outbox, log: seq<Entry>, op: Operation, at: int, source: CommitSource)
    returns (r: Result<Media, StoreError>)
    ensures r == ApplyResources(m, o, log, op, at, source, 0)
  {
    var resources := Resources(op.body);
    if resources == [] || source.Remote? {
      RemoteQueuesNothing(m, o, log, op, at, 0);
      return Ok(m);
    }
    var next := m;
    var i := 0;
    while i < |resources|
      invariant 0 <= i <= |resources|
      invariant ApplyResources(m, o, log, op, at, source, 0) == ApplyResources(next, o, log, op, at, source, i)
    {
      r := ApplyResource(next, o, log, resources[i].contentId, at, source);
      if r.Err? { return; }
      next := r.value;
      i := i + 1;
    }
    return Ok(next);
  }

  // ----- leasing -----

  datatype DeliveryItem = DeliveryItem(operation: Operation, attemptCount: nat)

  ghost predicate DistinctOps(ops: seq<Operation>) { forall i, j | 0 <= i < j < |ops| :: ops[i].id != ops[j].id }

  /** Leases the selected rows one by one; a repeated row would be charged twice, so the batch must not repeat. */
  method LeaseEach(rows: Deliveries, peer: PeerId, batch: seq<Operation>, lease: LeaseId, expires: int)
    returns (next: Deliveries, items: seq<DeliveryItem>, fit: bool)
    requires DistinctOps(batch) && forall i | 0 <= i < |batch| :: (peer, batch[i].id) in rows
    ensures fit == AttemptsFit(rows, peer, batch)
    ensures fit ==> next == LeaseRows(rows, peer, batch, lease, expires) && |items| == |batch|
    ensures fit ==> forall i | 0 <= i < |batch| ::
              items[i] == DeliveryItem(batch[i], rows[(peer, batch[i].id)].attemptCount + 1)
  {
    next, items := rows, [];
    var i := 0;
    LeaseNone(rows, peer, batch, lease, expires);
    while i < |batch|
      invariant 0 <= i <= |batch| && next == LeaseRows(rows, peer, batch[..i], lease, expires)
      invariant Charged(rows, peer, batch, items, i)
    {
      var k := (peer, batch[i].id);
      LeaseOneMore(rows, peer, batch, i, lease, expires);
      next := next[k := LeaseRow(next[k], lease, expires)];
      if next[k].attemptCount > U32_MAX { return next, items, false; }
      ChargeOneMore(rows, peer, batch, items, i);
      items := items + [DeliveryItem(batch[i], next[k].attemptCount)];
      i := i + 1;
    }
    assert batch[..|batch|] == batch;
    fit := true;
  }

  /** The first `n` rows could be charged one more attempt, and the items report it. */
  ghost predicate Charged(rows: Deliveries, peer: PeerId, batch: seq<Operation>, items: seq<DeliveryItem>, n: nat) {
    && n <= |batch| && |items| == n
    && (forall i | 0 <= i < n ::
          && (peer, batch[i].id) in rows && rows[(peer, batch[i].id)].attemptCount < U32_MAX
          && items[i] == DeliveryItem(batch[i], rows[(peer, batch[i].id)].attemptCount + 1))
  }

  lemma ChargeOneMore(rows: Deliveries, peer: PeerId, batch: seq<Operation>, items: seq<DeliveryItem>, n: nat)
    requires Charged(rows, peer, batch, items, n) && n < |batch|
    requires (peer, batch[n].id) in rows && rows[(peer, batch[n].id)].attemptCount < U32_MAX
    ensures Charged(rows, peer, batch, items + [DeliveryItem(batch[n], rows[(peer, batch[n].id)].attemptCount + 1)], n + 1)
  {
  }

  lemma LeaseNone(rows: Deliveries, peer: PeerId, batch: seq<Operation>, lease: LeaseId, expires: int)
    ensures LeaseRows(rows, peer, batch[..0], lease, expires) == rows
  {
  }

  lemma LeaseOneMore(rows: Deliveries, peer: PeerId, batch: seq<Operation>, n: nat, lease: LeaseId, expires: int)
    requires DistinctOps(batch) && n < |batch| && (peer, batch[n].id) in rows
    ensures
      var k := (peer, batch[n].id);
      && LeaseRows(rows, peer, batch[..n], lease, expires)[k] == rows[k]
      && LeaseRows(rows, peer, batch[..n + 1], lease, expires)
         == LeaseRows(rows, peer, batch[..n], lease, expires)[k := LeaseRow(rows[k], lease, expires)]
  {
    var k := (peer, batch[n].id);
    var less, more := batch[..n], batch[..n + 1];
    var before, after := LeaseRows(rows, peer, less, lease, expires), LeaseRows(rows, peer, more, lease, expires);
    assert more == less + [batch[n]];
    forall j | j in rows && j != k ensures after[j] == before[j] {
      if j.0 == peer && exists i :: 0 <= i < |more| && more[i].id == j.1 {
        var i :| 0 <= i < |more| && more[i].id == j.1;
        assert less[i].id == j.1;
      } else {
        assert forall i | 0 <= i < n :: less[i] == more[i];
      }
    }
    assert more[n].id == k.1;
    assert forall i | 0 <= i < n :: less[i].id != k.1;
  }

  lemma BatchIsReady(o: Outbox, log: seq<Entry>, peer: PeerId, now: int, limit: nat)
    requires LegalLog(log)
    ensures
      var batch := Take(Due(o, log, peer, now), limit);
      DistinctOps(batch) && forall i | 0 <= i < |batch| :: (peer, batch[i].id) in o.deliveries
  {
    LegalIsDistinct(log);
    DueIsDistinct(o, log, peer, now);
    var due := Due(o, log, peer, now);
    forall i | 0 <= i < |Take(due, limit)| ensures (peer, Take(due, limit)[i].id) in o.deliveries {
      DueRows(o, log, peer, now, i);
    }
  }

  method LeaseEachTransfer(rows: Transfers, selected: seq<TransferKey>, lease: LeaseId, expires: int)
    returns (next: Transfers, fit: bool)
    requires forall i | 0 <= i < |selected| :: selected[i] in rows
    requires forall i, j | 0 <= i < j < |selected| :: selected[i] != selected[j]
    ensures fit <==> forall k | k in selected :: rows[k].attemptCount < U32_MAX
    ensures fit ==> next == LeaseSelected(rows, selected, lease, expires)
  {
    next := rows;
    var i := 0;
    assert next == LeaseSelected(rows, selected[..0], lease, expires);
    while i < |selected|
      invariant 0 <= i <= |selected|
      invariant next == LeaseSelected(rows, selected[..i], lease, expires)
      invariant forall n | 0 <= n < i :: rows[selected[n]].attemptCount < U32_MAX
    {
      var k := selected[i];
      assert selected[..i + 1] == selected[..i] + [k];
      assert k !in selected[..i];
      next := next[k := LeaseTransfer(next[k], lease, expires)];
      assert next == LeaseSelected(rows, selected[..i + 1], lease, expires);
      if next[k].attemptCount > U32_MAX { return next, false; }
      i := i + 1;
    }
    assert selected[..|selected|] == selected;
    fit := true;
  }

  lemma SelectionIsReady(m: Media, o: Outbox, now: int, limit: nat)
    ensures
      var selected := Selected(m, o, now, limit);
      && (forall i | 0 <= i < |selected| :: selected[i] in m.transfers)
      && (forall i, j | 0 <= i < j < |selected| :: selected[i] != selected[j])
  {
    SelectionIsLeast(m.transfers, DueTransfers(m, o, now), limit);
  }

  datatype TransferItem = TransferItem(key: TransferKey, byteLength: nat, transfer: Transfer)

  /** The items are the selected rows as they now stand, in order, with the length of their content. */
  ghost predicate Loads(m: Media, items: seq<TransferItem>, selected: seq<TransferKey>) {
    && |items| == |selected|
    && forall i | 0 <= i < |items| ::
         && selected[i] in m.transfers && selected[i].content in m.resources
         && items[i] == TransferItem(selected[i], m.resources[selected[i].content].byteLength, m.transfers[selected[i]])
  }

  method LoadTransfers(m: Media, selected: seq<TransferKey>) returns (items: seq<TransferItem>)
    requires forall i | 0 <= i < |selected| :: selected[i] in m.transfers && selected[i].content in m.resources
    ensures Loads(m, items, selected)
  {
    items := [];
    for i := 0 to |selected|
      invariant Loads(m, items, selected[..i])
    {
      var k := selected[i];
      assert selected[..i + 1] == selected[..i] + [k];
      items := items + [TransferItem(k, m.resources[k.content].byteLength, m.transfers[k])];
    }
    assert selected[..|selected|] == selected;
  }

  datatype CommitResult = CommitResult(localSequence: nat, replayed: bool, queuedPeers: nat)

  function SequenceOf(log: seq<Entry>, id: OperationId): nat {
    if log == [] then 0
    else if log[|log| - 1].op.id == id then log[|log| - 1].sequence
    else SequenceOf(log[..|log| - 1], id)
  }

  function QueuedPeers(o: Outbox, id: OperationId): set<PeerId> { set k | k in o.deliveries && k.1 == id :: k.0 }

  // ----- transaction bodies -----

  method InsertOperation(db: Database, op: Operation, at: int, local: bool) returns (r: Result<Database, StoreError>)
    ensures r == Insert(db, op, at, local)
  {
    var references := ValidateReferences(db.graph.log, op);
    if references.Err? { return Err(references.error); }
    var topology := ValidateTopology(db.graph, op);
    if topology.Err? { return Err(topology.error); }
    var derived := DeriveRows(db.graph.derived, op);
    if derived.Err? { return Err(derived.error); }
    var resources := InsertResources(db.media, op, at);
    if resources.Err? { return Err(resources.error); }
    var entry := Entry(db.graph.lastSequence + 1, op, at, local);
    var graph := Graph(db.graph.log + [entry], entry.sequence, derived.value);
    r := Ok(db.(graph := graph, media := resources.value));
  }

  /** The commit transaction on its own copy of the tables. */
  method CommitTransaction(db: Database, op: Operation, at: int, source: CommitSource)
    returns (r: Result<Database, StoreError>)
    ensures r == ClientDatabase.Commit(db, op, at, source)
  {
    if !Verified(op) { return Err(InvalidOperation); }
    if at < 0 { return Err(NegativeTimestamp); }
    var tx := db;
    if op.id in Ops(db.graph.log) {
      if Ops(db.graph.log)[op.id] != op { return Err(OperationConflict(op.id)); }
    } else {
      var inserted := InsertOperation(tx, op, at, source.Local?);
      if inserted.Err? { return Err(inserted.error); }
      tx := inserted.value;
    }
    var queued := ApplySource(tx.outbox, op, at, source);
    if queued.Err? { return Err(queued.error); }
    var resources := QueueResources(tx.media, queued.value, tx.graph.log, op, at, source);
    if resources.Err? { return Err(resources.error); }
    r := Ok(tx.(outbox := queued.value, media := resources.value));
  }

  method LeaseBatch(o: Outbox, log: seq<Entry>, peer: PeerId, now: int, leaseMs: int, limit: nat, lease: LeaseId)
    returns (r: Result<(Outbox, seq<DeliveryItem>), StoreError>)
    requires LegalLog(log)
    ensures
      match LeaseDue(o, log, peer, now, leaseMs, limit, lease)
      case Err(e) => r == Err(e)
      case Ok(leased) => r.Ok? && r.value.0 == leased.0 && Reports(o, r.value.1, leased.1, peer)
  {
    if now < 0 { return Err(NegativeTimestamp); }
    if !(1 <= limit <= MAX_OUTBOX_BATCH) { return Err(InvalidOutboxLimit); }
    if !ValidLease(now, leaseMs) { return Err(InvalidLeaseDuration); }
    var batch := Take(Due(o, log, peer, now), limit);
    BatchIsReady(o, log, peer, now, limit);
    var next, items, fit := LeaseEach(o.deliveries, peer, batch, lease, now + leaseMs);
    if !fit { return Err(Corrupt); }
    r := Ok((o.(deliveries := next), items));
  }

  /** The items are the batch, each with its own raised attempt count. */
  ghost predicate Reports(o: Outbox, items: seq<DeliveryItem>, batch: seq<Operation>, peer: PeerId) {
    && |items| == |batch|
    && forall i | 0 <= i < |batch| ::
         && (peer, batch[i].id) in o.deliveries
         && items[i] == DeliveryItem(batch[i], o.deliveries[(peer, batch[i].id)].attemptCount + 1)
  }

  lemma LeaseStepIs(db: Database, peer: PeerId, now: int, leaseMs: int, limit: nat, lease: LeaseId)
    ensures
      var step := LeaseStep(peer, now, leaseMs, limit, lease);
      match LeaseDue(db.outbox, db.graph.log, peer, now, leaseMs, limit, lease)
      case Err(e) => Apply(db, step) == Err(e)
      case Ok(leased) => Apply(db, step) == Ok(Database(db.graph, leased.0, db.media))
  {
  }

  lemma LeaseTransaction(db: Database, peer: PeerId, now: int, leaseMs: int, limit: nat, lease: LeaseId)
    requires DatabaseInv(db)
    ensures
      var step := LeaseStep(peer, now, leaseMs, limit, lease);
      match LeaseDue(db.outbox, db.graph.log, peer, now, leaseMs, limit, lease)
      case Err(e) => Apply(db, step) == Err(e) && Next(db, step) == db
      case Ok(leased) =>
        && Apply(db, step) == Ok(Database(db.graph, leased.0, db.media)) && Next(db, step) == Apply(db, step).value
        && DatabaseInv(Next(db, step))
  {
    LeaseStepIs(db, peer, now, leaseMs, limit, lease);
    NextKeepsInv(db, LeaseStep(peer, now, leaseMs, limit, lease));
  }

  lemma LeaseMediaStepIs(db: Database, now: int, leaseMs: int, limit: nat, lease: LeaseId)
    ensures
      var step := MediaStep(LeaseMedia(now, leaseMs, limit, lease));
      match LeaseTransfers(db.media, db.outbox, now, leaseMs, limit, lease)
      case Err(e) => Apply(db, step) == Err(e) && Next(db, step) == db
      case Ok(leased) =>
        Apply(db, step) == Ok(Database(db.graph, db.outbox, leased.0)) && Next(db, step) == Apply(db, step).value
  {
  }

  lemma SelectedAreKnown(m: Media, o: Outbox, now: int, leaseMs: int, limit: nat, lease: LeaseId)
    requires MediaInv(m) && LeaseTransfers(m, o, now, leaseMs, limit, lease).Ok?
    ensures
      var leased := LeaseTransfers(m, o, now, leaseMs, limit, lease).value;
      leased.1 == Selected(m, o, now, limit) && forall i | 0 <= i < |leased.1| ::
        leased.1[i] in leased.0.transfers && leased.1[i].content in leased.0.resources
  {
    SelectionIsReady(m, o, now, limit);
  }

  lemma LeaseMediaTransaction(db: Database, now: int, leaseMs: int, limit: nat, lease: LeaseId)
    requires DatabaseInv(db)
    ensures
      var step := MediaStep(LeaseMedia(now, leaseMs, limit, lease));
      match LeaseTransfers(db.media, db.outbox, now, leaseMs, limit, lease)
      case Err(e) => Apply(db, step) == Err(e) && Next(db, step) == db
      case Ok(leased) =>
        && Apply(db, step) == Ok(Database(db.graph, db.outbox, leased.0)) && Next(db, step) == Apply(db, step).value
        && DatabaseInv(Next(db, step)) && leased.1 == Selected(db.media, db.outbox, now, limit)
        && forall i | 0 <= i < |leased.1| :: leased.1[i] in leased.0.transfers && leased.1[i].content in leased.0.resources
  {
    LeaseMediaStepIs(db, now, leaseMs, limit, lease);
    NextKeepsInv(db, MediaStep(LeaseMedia(now, leaseMs, limit, lease)));
    if LeaseTransfers(db.media, db.outbox, now, leaseMs, limit, lease).Ok? {
      SelectedAreKnown(db.media, db.outbox, now, leaseMs, limit, lease);
    }
  }

  lemma FinishStepIs(db: Database, peer: PeerId, id: OperationId, lease: LeaseId, outcome: Outcome, at: int, error: Option<string>)
    ensures
      var r := Finish(db.outbox, peer, id, lease, outcome, at, error);
      Next(db, FinishStep(peer, id, lease, outcome, at, error)) == if r.Ok? then Database(db.graph, r.value, db.media) else db
  {
  }

  predicate MayFinish(o: Outbox, k: DeliveryKey, lease: LeaseId, at: int, error: Option<string>) {
    && 0 <= at && (error.Some? ==> |error.value| <= MAX_ERROR_BYTES)
    && k in o.deliveries && Holds(o.deliveries[k], lease)
  }

  function FinishedRows(o: Outbox, k: DeliveryKey, outcome: Outcome, at: int, error: Option<string>): Outbox
    requires k in o.deliveries
  {
    o.(deliveries := o.deliveries[k := FinishRow(o.deliveries[k], outcome, at, error)])
  }

  lemma FinishIs(o: Outbox, peer: PeerId, id: OperationId, lease: LeaseId, outcome: Outcome, at: int, error: Option<string>)
    ensures
      var r := Finish(o, peer, id, lease, outcome, at, error);
      if MayFinish(o, (peer, id), lease, at, error) then r == Ok(FinishedRows(o, (peer, id), outcome, at, error)) else r.Err?
  {
  }

  lemma FinishTransaction(db: Database, peer: PeerId, id: OperationId, lease: LeaseId, outcome: Outcome, at: int,
                          error: Option<string>)
    requires DatabaseInv(db)
    ensures
      var step := FinishStep(peer, id, lease, outcome, at, error);
      && DatabaseInv(Next(db, step))
      && Next(db, step) ==
         if MayFinish(db.outbox, (peer, id), lease, at, error) then
           Database(db.graph, FinishedRows(db.outbox, (peer, id), outcome, at, error), db.media)
         else db
  {
    NextKeepsInv(db, FinishStep(peer, id, lease, outcome, at, error));
    FinishStepIs(db, peer, id, lease, outcome, at, error);
    FinishIs(db.outbox, peer, id, lease, outcome, at, error);
  }

  lemma ReleaseStepIs(db: Database, peer: PeerId, lease: LeaseId)
    ensures Next(db, ReleaseStep(peer, lease)) == Database(db.graph, Release(db.outbox, peer, lease), db.media)
  {
  }

  function HeldRows(o: Outbox, peer: PeerId, lease: LeaseId): set<DeliveryKey> {
    set k | k in o.deliveries && k.0 == peer && Holds(o.deliveries[k], lease)
  }

  lemma ReleasedRows(o: Outbox, peer: PeerId, lease: LeaseId)
    ensures forall id | (peer, id) in Release(o, peer, lease).deliveries :: !Holds(Release(o, peer, lease).deliveries[(peer, id)], lease)
  {
  }

  lemma RebuildTransaction(db: Database)
    requires DatabaseInv(db)
    ensures Rebuild(db.graph.log).Ok? && HeadsExact(Ops(db.graph.log), Rebuild(db.graph.log).value.heads)
    ensures Next(db, RebuildStep) == Database(db.graph.(derived := Rebuild(db.graph.log).value), db.outbox, db.media)
    ensures DatabaseInv(Next(db, RebuildStep))
  {
    NextKeepsInv(db, RebuildStep);
    RebuildRepresents(db.graph.log);
    RebuildStepIs(db);
  }

  method LeaseMediaBatch(m: Media, o: Outbox, now: int, leaseMs: int, limit: nat, lease: LeaseId)
    returns (r: Result<(Media, seq<TransferKey>), StoreError>)
    ensures r == LeaseTransfers(m, o, now, leaseMs, limit, lease)
  {
    if now < 0 { return Err(NegativeTimestamp); }
    if !(1 <= limit <= MAX_RESOURCE_TRANSFER_BATCH) { return Err(InvalidResourceTransferLimit); }
    if !ValidLease(now, leaseMs) { return Err(InvalidLeaseDuration); }
    var selected := Selected(m, o, now, limit);
    SelectionIsReady(m, o, now, limit);
    var next, fit := LeaseEachTransfer(m.transfers, selected, lease, now + leaseMs);
    if !fit { return Err(Corrupt); }
    r := Ok((m.(transfers := next), selected));
  }

  // ----- the store -----

  class ClientStore {
    var graph: Graph
    var outbox: Outbox
    var media: Media

    ghost predicate Valid()
      reads this
    {
      DatabaseInv(Tables())
    }

    ghost function Tables(): Database
      reads this
    {
      Database(graph, outbox, media)
    }

    constructor ()
      ensures Valid() && Tables() == EMPTY_DATABASE
    {
      graph, outbox, media := EMPTY_GRAPH, EMPTY_OUTBOX, EMPTY_MEDIA;
    }

    /** Admits one operation: idempotent on replay, refused whole on any failed check. */
    method Commit(op: Operation, at: int, source: CommitSource) returns (r: Result<CommitResult, StoreError>)
      requires Valid()
      modifies this
      ensures Valid() && Tables() == Next(old(Tables()), CommitStep(op, at, source))
      ensures r.Ok? <==> Apply(old(Tables()), CommitStep(op, at, source)).Ok?
      ensures r.Err? ==> Apply(old(Tables()), CommitStep(op, at, source)) == Err(r.error)
      ensures r.Ok? ==> r.value.replayed == (op.id in Ops(old(graph).log))
      ensures r.Ok? ==> r.value.localSequence == SequenceOf(graph.log, op.id)
      ensures r.Ok? ==> r.value.queuedPeers == |QueuedPeers(outbox, op.id)|
    {
      NextKeepsInv(Tables(), CommitStep(op, at, source));
      var replayed := op.id in Ops(graph.log);
      var tx := CommitTransaction(Database(graph, outbox, media), op, at, source);
      if tx.Err? { return Err(tx.error); }
      graph, outbox, media := tx.value.graph, tx.value.outbox, tx.value.media;
      r := Ok(CommitResult(SequenceOf(graph.log, op.id), replayed, |QueuedPeers(outbox, op.id)|));
    }

    method DeleteWorkspace(space: SpaceId) returns (r: Result<(), StoreError>)
      requires Valid()
      modifies this
      ensures Valid() && Tables() == Next(old(Tables()), DeleteStep(space))
      ensures r.Ok? <==> Detached(Ops(old(graph).log), space)
    {
      NextKeepsInv(Tables(), DeleteStep(space));
      DeleteSucceedsExactly(graph, space);
      var gone := SpaceIds(graph.log, space);
      var deleted := DeleteSpace(graph, space);
      if deleted.Err? { return Err(deleted.error); }
      outbox := ForgetSpace(outbox, space, gone);
      media := ForgetLinks(media, gone);
      graph := deleted.value;
      r := Ok(());
    }

    /** Replays the whole log; deliveries and transfers are left alone. */
    method RebuildDerivedState() returns (r: Result<nat, StoreError>)
      requires Valid()
      modifies this`graph
      ensures Valid() && Tables() == Next(old(Tables()), RebuildStep)
      ensures r == Ok(|graph.log|) && graph.log == old(graph).log
      ensures HeadsExact(Ops(graph.log), graph.derived.heads)
    {
      RebuildTransaction(Tables());
      var replayed := Replay(graph.log);
      graph := graph.(derived := replayed.value);
      r := Ok(|graph.log|);
    }

    method LeaseDue(peer: PeerId, now: int, leaseMs: int, limit: nat, lease: LeaseId)
      returns (r: Result<seq<DeliveryItem>, StoreError>)
      requires Valid()
      modifies this`outbox
      ensures Valid() && Tables() == Next(old(Tables()), LeaseStep(peer, now, leaseMs, limit, lease))
      ensures r.Ok? <==> Apply(old(Tables()), LeaseStep(peer, now, leaseMs, limit, lease)).Ok?
      ensures r.Ok? ==> Reports(old(outbox), r.value, Take(Due(old(outbox), graph.log, peer, now), limit), peer)
    {
      LeaseTransaction(Tables(), peer, now, leaseMs, limit, lease);
      var tx := LeaseBatch(outbox, graph.log, peer, now, leaseMs, limit, lease);
      if tx.Err? { return Err(tx.error); }
      outbox := tx.value.0;
      r := Ok(tx.value.1);
    }

    method LeaseDueResources(now: int, leaseMs: int, limit: nat, lease: LeaseId)
      returns (r: Result<seq<TransferItem>, StoreError>)
      requires Valid()
      modifies this`media
      ensures Valid() && Tables() == Next(old(Tables()), MediaStep(LeaseMedia(now, leaseMs, limit, lease)))
      ensures r.Ok? <==> Apply(old(Tables()), MediaStep(LeaseMedia(now, leaseMs, limit, lease))).Ok?
      ensures r.Ok? ==> Loads(media, r.value, Selected(old(media), outbox, now, limit))
    {
      LeaseMediaTransaction(Tables(), now, leaseMs, limit, lease);
      var tx := LeaseMediaBatch(media, outbox, now, leaseMs, limit, lease);
      if tx.Err? { return Err(tx.error); }
      media := tx.value.0;
      var items := LoadTransfers(media, tx.value.1);
      r := Ok(items);
    }

    method FinishDelivery(peer: PeerId, id: OperationId, lease: LeaseId, outcome: Outcome, at: int, error: Option<string>)
      returns (r: Result<(), StoreError>)
      requires Valid()
      modifies this`outbox
      ensures Valid() && Tables() == Next(old(Tables()), FinishStep(peer, id, lease, outcome, at, error))
      ensures r.Ok? <==> MayFinish(old(outbox), (peer, id), lease, at, error)
      ensures r.Err? ==> outbox == old(outbox)
    {
      FinishTransaction(Tables(), peer, id, lease, outcome, at, error);
      var k := (peer, id);
      if at < 0 { return Err(NegativeTimestamp); }
      if error.Some? && |error.value| > MAX_ERROR_BYTES { return Err(DeliveryErrorTooLong); }
      if k !in outbox.deliveries || !Holds(outbox.deliveries[k], lease) { return Err(LeaseMismatch); }
      outbox := FinishedRows(outbox, k, outcome, at, error);
      r := Ok(());
    }

    /** Returns how many rows the lease still held. */
    method ReleaseLease(peer: PeerId, lease: LeaseId) returns (released: nat)
      requires Valid()
      modifies this`outbox
      ensures Valid() && Tables() == Next(old(Tables()), ReleaseStep(peer, lease))
      ensures forall id | (peer, id) in outbox.deliveries :: !Holds(outbox.deliveries[(peer, id)], lease)
      ensures released == |HeldRows(old(outbox), peer, lease)|
    {
      NextKeepsInv(Tables(), ReleaseStep(peer, lease));
      ReleaseStepIs(Tables(), peer, lease);
      ReleasedRows(outbox, peer, lease);
      released := |HeldRows(outbox, peer, lease)|;
      outbox := Release(outbox, peer, lease);
    }
  }
}
