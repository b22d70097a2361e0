/** The client store as a state machine: every public transaction is one atomic step on the whole database. */
module ClientDatabase {
  import opened Wrappers
  import opened Operations
  import opened OperationGraph
  import opened GraphInvariants
  import opened Outbox
  import opened MediaTransfers

  datatype Database = Database(graph: Graph, outbox: Outbox, media: Media)

  const EMPTY_DATABASE: Database := Database(EMPTY_GRAPH, EMPTY_OUTBOX, EMPTY_MEDIA)

  // ----- transactions that touch several tables -----

  /** Queues a stored operation and its resources according to where it came from. */
  function Announce(db: Database, op: Operation, at: int, source: CommitSource): Result<Database, StoreError> {
    match ApplySource(db.outbox, op, at, source)
    case Err(e) => Err(e)
    case Ok(outbox) =>
      match ApplyResources(db.media, outbox, db.graph.log, op, at, source, 0)
      case Err(e) => Err(e)
      case Ok(media) => Ok(db.(outbox := outbox, media := media))
  }

  /** A new operation: its graph rows and its resources. */
  function Insert(db: Database, op: Operation, at: int, local: bool): Result<Database, StoreError> {
    match Admit(db.graph, op, at, local)
    case Err(e) => Err(e)
    case Ok(graph) =>
      match Discover(db.media, op, at, 0)
      case Err(e) => Err(e)
      case Ok(media) => Ok(db.(graph := graph, media := media))
  }

  function Commit(db: Database, op: Operation, at: int, source: CommitSource): Result<Database, StoreError> {
    if !Verified(op) then Err(InvalidOperation)
    else if at < 0 then Err(NegativeTimestamp)
    else if op.id in Ops(db.graph.log) then
      if Ops(db.graph.log)[op.id] != op then Err(OperationConflict(op.id)) else Announce(db, op, at, source)
    else
      match Insert(db, op, at, source.Local?)
      case Err(e) => Err(e)
      case Ok(next) => Announce(next, op, at, source)
  }

  function DeleteWorkspace(db: Database, space: SpaceId): Result<Database, StoreError> {
    match DeleteSpace(db.graph, space)
    case Err(e) => Err(e)
    case Ok(graph) =>
      var gone := SpaceIds(db.graph.log, space);
      Ok(Database(graph, ForgetSpace(db.outbox, space, gone), ForgetLinks(db.media, gone)))
  }

  function RebuildDerived(db: Database): Result<Database, StoreError> {
    match Rebuild(db.graph.log)
    case Err(e) => Err(e)
    case Ok(derived) => Ok(db.(graph := db.graph.(derived := derived)))
  }

  function AddPeer(db: Database, id: PeerId, config: Peer): Result<Database, StoreError> {
    match UpsertPeer(db.outbox, db.graph.log, id, config)
    case Err(e) => Err(e)
    case Ok(outbox) =>
      Ok(db.(outbox := outbox,
             media := if config.enabled && config.pushEnabled then
                        QueueKnownForPeer(db.media, outbox, db.graph.log, id, config.addedAt)
                      else db.media))
  }

  function EnablePeer(db: Database, id: PeerId, enabled: bool): Result<Database, StoreError> {
    match SetPeerEnabled(db.outbox, db.graph.log, id, enabled)
    case Err(e) => Err(e)
    case Ok(outbox) =>
      Ok(db.(outbox := outbox,
             media := if Pushes(outbox, id) then QueueKnownForPeer(db.media, outbox, db.graph.log, id, 0) else db.media))
  }

  function AddPeerSpace(db: Database, id: PeerId, space: SpaceId, config: PeerSpace): Result<Database, StoreError> {
    match ConfigurePeerSpace(db.outbox, db.graph.log, id, space, config)
    case Err(e) => Err(e)
    case Ok(outbox) =>
      Ok(db.(outbox := outbox,
             media := if Pushes(outbox, id) then
                        QueueKnownForPeerSpace(db.media, db.graph.log, id, space, config.nextPullAt)
                      else db.media))
  }

  function ReopenPeerSpace(db: Database, id: PeerId, space: SpaceId, now: int): Result<Database, StoreError> {
    match Requeue(db.outbox, db.graph.log, id, space, now)
    case Err(e) => Err(e)
    case Ok(outbox) => Ok(db.(outbox := outbox, media := RequeueUploads(db.media, db.graph.log, id, space, now)))
  }

  // ----- steps and runs -----

  datatype MediaStep =
    | MarkLocal(content: ContentId, byteLength: nat, at: int)
    | LeaseMedia(now: int, leaseMs: int, limit: nat, lease: LeaseId)
    | RecordProgress(key: TransferKey, lease: LeaseId, bytes: nat, url: Option<string>)
    | FinishMedia(key: TransferKey, lease: LeaseId, outcome: Outcome, at: int, error: Option<string>)
    | ContinueMedia(key: TransferKey, lease: LeaseId, at: int)
    | AwaitLocal(peer: PeerId, content: ContentId, lease: LeaseId, at: int, reason: string)

  datatype Step =
    | CommitStep(op: Operation, at: int, source: CommitSource)
    | DeleteStep(space: SpaceId)
    | RebuildStep
    | PeerStep(peer: PeerId, config: Peer)
    | EnableStep(peer: PeerId, enabled: bool)
    | SpaceStep(peer: PeerId, space: SpaceId, spaceConfig: PeerSpace)
    | RequeueStep(peer: PeerId, space: SpaceId, now: int)
    | LeaseStep(peer: PeerId, now: int, leaseMs: int, limit: nat, lease: LeaseId)
    | FinishStep(peer: PeerId, id: OperationId, lease: LeaseId, outcome: Outcome, at: int, error: Option<string>)
    | ReleaseStep(peer: PeerId, lease: LeaseId)
    | MediaStep(step: MediaStep)

  function MediaNext(m: Media, o: Outbox, step: MediaStep): Result<Media, StoreError> {
    match step
    case MarkLocal(content, byteLength, at) => MarkResourceLocal(m, content, byteLength, at)
    case LeaseMedia(now, leaseMs, limit, lease) =>
      (match LeaseTransfers(m, o, now, leaseMs, limit, lease)
       case Err(e) => Err(e)
       case Ok(leased) => Ok(leased.0))
    case RecordProgress(key, lease, bytes, url) => Progress(m, key, lease, bytes, url)
    case FinishMedia(key, lease, outcome, at, error) => FinishTransfer(m, key, lease, outcome, at, error)
    case ContinueMedia(key, lease, at) => ContinueTransfer(m, key, lease, at)
    case AwaitLocal(peer, content, lease, at, reason) => WaitForLocal(m, peer, content, lease, at, reason)
  }

  function OnOutbox(db: Database, r: Result<Outbox, StoreError>): Result<Database, StoreError> {
    if r.Ok? then Ok(db.(outbox := r.value)) else Err(r.error)
  }

  function Apply(db: Database, step: Step): Result<Database, StoreError> {
    match step
    case CommitStep(op, at, source) => Commit(db, op, at, source)
    case DeleteStep(space) => DeleteWorkspace(db, space)
    case RebuildStep => RebuildDerived(db)
    case PeerStep(peer, config) => AddPeer(db, peer, config)
    case EnableStep(peer, enabled) => EnablePeer(db, peer, enabled)
    case SpaceStep(peer, space, config) => AddPeerSpace(db, peer, space, config)
    case RequeueStep(peer, space, now) => ReopenPeerSpace(db, peer, space, now)
    case LeaseStep(peer, now, leaseMs, limit, lease) =>
      (match LeaseDue(db.outbox, db.graph.log, peer, now, leaseMs, limit, lease)
       case Err(e) => Err(e)
       case Ok(leased) => Ok(db.(outbox := leased.0)))
    case FinishStep(peer, id, lease, outcome, at, error) =>
      OnOutbox(db, Finish(db.outbox, peer, id, lease, outcome, at, error))
    case ReleaseStep(peer, lease) => Ok(db.(outbox := Release(db.outbox, peer, lease)))
    case MediaStep(mediaStep) =>
      (match MediaNext(db.media, db.outbox, mediaStep)
       case Err(e) => Err(e)
       case Ok(media) => Ok(db.(media := media)))
  }

  /** A refused transaction rolls back. */
  function Next(db: Database, step: Step): Database {
    var r := Apply(db, step);
    if r.Ok? then r.value else db
  }

  function Run(db: Database, steps: seq<Step>): Database
    decreases |steps|
  {
    if steps == [] then db else Run(Next(db, steps[0]), steps[1..])
  }

  lemma {:induction false} RunSplits(db: Database, steps: seq<Step>, more: seq<Step>)
    ensures Run(db, steps + more) == Run(Run(db, steps), more)
    decreases |steps|
  {
    if steps == [] {
      assert steps + more == more;
    } else {
      assert (steps + more)[0] == steps[0] && (steps + more)[1..] == steps[1..] + more;
      RunSplits(Next(db, steps[0]), steps[1..], more);
    }
  }

  // ----- how each step moves the graph -----

  datatype GraphMove =
    | Unmoved
    | Admitted(op: Operation, at: int, local: bool)
    | Deleted(space: SpaceId)
    | Rebuilt

  /** What a step does to the graph: one admission, one deletion, one rebuild, or nothing. */
  function MoveOf(db: Database, step: Step): GraphMove {
    if Apply(db, step).Err? then Unmoved
    else
      match step
      case CommitStep(op, at, source) =>
        if op.id in Ops(db.graph.log) then Unmoved else Admitted(op, at, source.Local?)
      case DeleteStep(space) => Deleted(space)
      case RebuildStep => Rebuilt
      case _ => Unmoved
  }

  lemma GraphMoves(db: Database, step: Step)
    ensures
      var g, next := db.graph, Next(db, step).graph;
      match MoveOf(db, step)
      case Unmoved => next == g
      case Admitted(op, at, local) => Verified(op) && op.id !in Ops(g.log) && Admit(g, op, at, local) == Ok(next)
      case Deleted(space) => DeleteSpace(g, space) == Ok(next)
      case Rebuilt => Rebuild(g.log).Ok? && next == g.(derived := Rebuild(g.log).value)
  {
  }

  lemma RebuildStepIs(db: Database)
    requires Rebuild(db.graph.log).Ok?
    ensures Next(db, RebuildStep) == Database(db.graph.(derived := Rebuild(db.graph.log).value), db.outbox, db.media)
  {
  }

  /** An accepted commit leaves a known operation's graph alone and admits a new one. */
  lemma CommitGraph(db: Database, op: Operation, at: int, source: CommitSource)
    requires Commit(db, op, at, source).Ok?
    ensures if op.id in Ops(db.graph.log) then Ops(db.graph.log)[op.id] == op && Commit(db, op, at, source).value.graph == db.graph
            else Admit(db.graph, op, at, source.Local?) == Ok(Commit(db, op, at, source).value.graph)
  {
  }

  /** An accepted commit stores its operation, whether it was new or a replay. */
  lemma CommitStores(db: Database, op: Operation, at: int, source: CommitSource)
    requires Commit(db, op, at, source).Ok?
    ensures Ops(Commit(db, op, at, source).value.graph.log) == Ops(db.graph.log)[op.id := op]
    ensures op.id in Ops(db.graph.log) ==> Ops(db.graph.log)[op.id] == op
  {
    CommitGraph(db, op, at, source);
    if op.id !in Ops(db.graph.log) {
      AdmitAppends(db.graph, op, at, source.Local?);
      OpsAppend(db.graph.log, Entry(db.graph.lastSequence + 1, op, at, source.Local?));
    }
  }

  // ----- outbox rows -----

  ghost predicate RowOk(d: Delivery) {
    && (d.state.Leased? <==> d.leaseId.Some?)
    && (d.state.Leased? <==> d.leaseExpiresAt.Some?)
    && (d.state.Acknowledged? <==> d.acknowledgedAt.Some?)
  }

  /** Rows are well formed and belong to a stored operation and a known peer. */
  ghost predicate OutboxInv(o: Outbox, ops: OpMap) {
    && (forall k | k in o.deliveries :: RowOk(o.deliveries[k]) && k.0 in o.peers && k.1 in ops)
    && (forall k | k in o.peerSpaces :: k.0 in o.peers)
  }

  lemma ApplySourceKeepsInv(o: Outbox, ops: OpMap, op: Operation, at: int, source: CommitSource)
    requires OutboxInv(o, ops) && op.id in ops && ApplySource(o, op, at, source).Ok?
    ensures OutboxInv(ApplySource(o, op, at, source).value, ops)
  {
  }

  lemma EnqueueKeepsInv(o: Outbox, ops: OpMap, added: map<DeliveryKey, int>)
    requires OutboxInv(o, ops) && forall k | k in added :: k.0 in o.peers && k.1 in ops
    ensures OutboxInv(o.(deliveries := Enqueue(o.deliveries, added)), ops)
  {
  }

  lemma UpsertPeerKeepsInv(o: Outbox, log: seq<Entry>, id: PeerId, config: Peer)
    requires OutboxInv(o, Ops(log)) && UpsertPeer(o, log, id, config).Ok?
    ensures OutboxInv(UpsertPeer(o, log, id, config).value, Ops(log))
  {
    var row := if id in o.peers then config.(addedAt := o.peers[id].addedAt) else config;
    var stored := o.(peers := o.peers[id := row]);
    EnqueueKeepsInv(stored, Ops(log), map op | op in ClientIds(stored, log, id) :: (id, op) := config.addedAt);
  }

  lemma SetPeerEnabledKeepsInv(o: Outbox, log: seq<Entry>, id: PeerId, enabled: bool)
    requires LegalLog(log) && OutboxInv(o, Ops(log)) && SetPeerEnabled(o, log, id, enabled).Ok?
    ensures OutboxInv(SetPeerEnabled(o, log, id, enabled).value, Ops(log))
  {
    forall e | e in log ensures e.op.id in Ops(log) { EntryIsStored(log, e); }
    var stored := o.(peers := o.peers[id := o.peers[id].(enabled := enabled)]);
    EnqueueKeepsInv(stored, Ops(log),
      map e | e in log && InScope(stored, id, e.op.space) :: (id, e.op.id) := StoredAt(log, e.op.id));
  }

  lemma ConfigureSpaceKeepsInv(o: Outbox, log: seq<Entry>, peer: PeerId, space: SpaceId, config: PeerSpace)
    requires OutboxInv(o, Ops(log)) && ConfigurePeerSpace(o, log, peer, space, config).Ok?
    ensures OutboxInv(ConfigurePeerSpace(o, log, peer, space, config).value, Ops(log))
  {
    var row := if (peer, space) in o.peerSpaces then o.peerSpaces[(peer, space)].(readMode := config.readMode) else config;
    var stored := o.(peerSpaces := o.peerSpaces[(peer, space) := row]);
    var ids := if config.readMode.Paired? then SpaceIds(log, space) else ClientSpaceIds(log, space);
    EnqueueKeepsInv(stored, Ops(log), map id | id in ids :: (peer, id) := config.nextPullAt);
  }

  lemma RequeueKeepsInv(o: Outbox, log: seq<Entry>, peer: PeerId, space: SpaceId, now: int)
    requires OutboxInv(o, Ops(log)) && Requeue(o, log, peer, space, now).Ok?
    ensures OutboxInv(Requeue(o, log, peer, space, now).value, Ops(log))
  {
    var added := EnqueueOps(o, peer, ClientSpaceIds(log, space), now);
    EnqueueKeepsInv(o, Ops(log), map id | id in ClientSpaceIds(log, space) :: (peer, id) := now);
  }

  lemma {:induction false} EntryIsStored(log: seq<Entry>, e: Entry)
    requires LegalLog(log) && e in log
    ensures e.op.id in Ops(log) && Ops(log)[e.op.id] == e.op
  {
    if e != log[|log| - 1] {
      assert log == log[..|log| - 1] + [log[|log| - 1]];
      EntryIsStored(log[..|log| - 1], e);
    }
  }

  lemma LeaseKeepsInv(o: Outbox, log: seq<Entry>, peer: PeerId, now: int, leaseMs: int, limit: nat, lease: LeaseId)
    requires OutboxInv(o, Ops(log)) && LeaseDue(o, log, peer, now, leaseMs, limit, lease).Ok?
    ensures OutboxInv(LeaseDue(o, log, peer, now, leaseMs, limit, lease).value.0, Ops(log))
  {
    forall i | 0 <= i < |Due(o, log, peer, now)|
      ensures
        var k := (peer, Due(o, log, peer, now)[i].id);
        k in o.deliveries && IsDue(o.deliveries[k], now)
    {
      DueRows(o, log, peer, now, i);
    }
  }

  lemma FinishKeepsInv(o: Outbox, ops: OpMap, peer: PeerId, id: OperationId, lease: LeaseId, outcome: Outcome, at: int,
                       error: Option<string>)
    requires OutboxInv(o, ops) && Finish(o, peer, id, lease, outcome, at, error).Ok?
    ensures OutboxInv(Finish(o, peer, id, lease, outcome, at, error).value, ops)
  {
  }

  lemma ReleaseKeepsInv(o: Outbox, ops: OpMap, peer: PeerId, lease: LeaseId)
    requires OutboxInv(o, ops)
    ensures OutboxInv(Release(o, peer, lease), ops)
  {
  }

  lemma LeasingKeepsInv(db: Database, step: Step)
    requires OutboxInv(db.outbox, Ops(db.graph.log)) && Apply(db, step).Ok?
    requires step.LeaseStep? || step.FinishStep? || step.ReleaseStep?
    ensures OutboxInv(Next(db, step).outbox, Ops(db.graph.log)) && Next(db, step).media == db.media
  {
    match step
    case LeaseStep(peer, now, leaseMs, limit, lease) => LeaseKeepsInv(db.outbox, db.graph.log, peer, now, leaseMs, limit, lease);
    case FinishStep(peer, id, lease, outcome, at, error) =>
      FinishKeepsInv(db.outbox, Ops(db.graph.log), peer, id, lease, outcome, at, error);
    case ReleaseStep(peer, lease) => ReleaseKeepsInv(db.outbox, Ops(db.graph.log), peer, lease);
  }

  /** Every leased row was due. */
  lemma {:induction false} DueRows(o: Outbox, log: seq<Entry>, peer: PeerId, now: int, i: nat)
    requires i < |Due(o, log, peer, now)|
    ensures
      var k := (peer, Due(o, log, peer, now)[i].id);
      k in o.deliveries && IsDue(o.deliveries[k], now)
    decreases |log|
  {
    if log != [] && peer in o.peers && o.peers[peer].enabled {
      var k := (peer, log[0].op.id);
      var first := if k in o.deliveries && IsDue(o.deliveries[k], now) then [log[0].op] else [];
      assert Due(o, log, peer, now) == first + Due(o, log[1..], peer, now);
      if |first| <= i { DueRows(o, log[1..], peer, now, i - |first|); }
    }
  }

  lemma MediaStepKeepsInv(m: Media, o: Outbox, step: MediaStep)
    requires MediaInv(m) && MediaNext(m, o, step).Ok?
    ensures MediaInv(MediaNext(m, o, step).value)
  {
    match step
    case MarkLocal(content, byteLength, at) => MarkAvailableKeepsInv(m, content, at);
    case LeaseMedia(now, leaseMs, limit, lease) => LeaseTransfersKeepsInv(m, o, now, leaseMs, limit, lease);
    case RecordProgress(key, lease, bytes, url) => ProgressKeepsInv(m, key, lease, bytes, url);
    case FinishMedia(key, lease, outcome, at, error) => FinishTransferKeepsInv(m, key, lease, outcome, at, error);
    case ContinueMedia(key, lease, at) => OtherTransfersKeepInv(m, key, lease, at, "");
    case AwaitLocal(peer, content, lease, at, reason) =>
      OtherTransfersKeepInv(m, TransferKey(peer, content, Upload), lease, at, reason);
  }

  // ----- the invariant of every run -----

  ghost predicate DatabaseInv(db: Database) {
    Inv(db.graph) && OutboxInv(db.outbox, Ops(db.graph.log)) && MediaInv(db.media)
  }

  lemma MoveKeepsInv(db: Database, step: Step)
    requires Inv(db.graph)
    ensures Inv(Next(db, step).graph)
    ensures
      Ops(Next(db, step).graph.log) ==
      match MoveOf(db, step)
      case Admitted(op, _, _) => Ops(db.graph.log)[op.id := op]
      case Deleted(space) => Remaining(Ops(db.graph.log), space)
      case _ => Ops(db.graph.log)
  {
    GraphMoves(db, step);
    match MoveOf(db, step)
    case Unmoved =>
    case Admitted(op, at, local) => AdmitKeepsInv(db.graph, op, at, local);
    case Deleted(space) => DeleteKeepsInv(db.graph, space);
    case Rebuilt => RebuildRepresents(db.graph.log);
  }

  lemma CommitKeepsInv(db: Database, op: Operation, at: int, source: CommitSource)
    requires DatabaseInv(db) && Commit(db, op, at, source).Ok?
    ensures OutboxInv(Commit(db, op, at, source).value.outbox, Ops(Commit(db, op, at, source).value.graph.log))
    ensures MediaInv(Commit(db, op, at, source).value.media)
  {
    var stored := db;
    if op.id !in Ops(db.graph.log) {
      stored := Insert(db, op, at, source.Local?).value;
      AdmitKeepsInv(db.graph, op, at, source.Local?);
      DiscoverKeepsInv(db.media, op, at, 0);
    }
    ApplySourceKeepsInv(stored.outbox, Ops(stored.graph.log), op, at, source);
    var outbox := ApplySource(stored.outbox, op, at, source).value;
    ApplyResourcesKeepsInv(stored.media, outbox, stored.graph.log, op, at, source, 0);
  }

  lemma DeleteKeepsRows(db: Database, space: SpaceId)
    requires DatabaseInv(db) && DeleteWorkspace(db, space).Ok?
    ensures OutboxInv(DeleteWorkspace(db, space).value.outbox, Remaining(Ops(db.graph.log), space))
    ensures MediaInv(DeleteWorkspace(db, space).value.media)
  {
  }

  lemma PeerStepKeepsInv(db: Database, step: Step)
    requires DatabaseInv(db) && Apply(db, step).Ok?
    requires step.PeerStep? || step.EnableStep?
    ensures OutboxInv(Next(db, step).outbox, Ops(db.graph.log)) && MediaInv(Next(db, step).media)
  {
    var outbox := Next(db, step).outbox;
    match step
    case PeerStep(peer, config) =>
      UpsertPeerKeepsInv(db.outbox, db.graph.log, peer, config);
      QueueKnownForPeerKeepsInv(db.media, outbox, db.graph.log, peer, config.addedAt);
    case EnableStep(peer, enabled) =>
      SetPeerEnabledKeepsInv(db.outbox, db.graph.log, peer, enabled);
      QueueKnownForPeerKeepsInv(db.media, outbox, db.graph.log, peer, 0);
  }

  lemma SpaceStepKeepsInv(db: Database, step: Step)
    requires DatabaseInv(db) && Apply(db, step).Ok?
    requires step.SpaceStep? || step.RequeueStep?
    ensures OutboxInv(Next(db, step).outbox, Ops(db.graph.log)) && MediaInv(Next(db, step).media)
  {
    var outbox := Next(db, step).outbox;
    match step
    case SpaceStep(peer, space, config) =>
      ConfigureSpaceKeepsInv(db.outbox, db.graph.log, peer, space, config);
      QueueKnownForSpaceKeepsInv(db.media, db.graph.log, peer, space, config.nextPullAt);
    case RequeueStep(peer, space, now) =>
      RequeueKeepsInv(db.outbox, db.graph.log, peer, space, now);
      RequeueUploadsKeepsInv(db.media, db.graph.log, peer, space, now);
  }

  lemma GraphStepKeepsRows(db: Database, step: Step)
    requires DatabaseInv(db) && Apply(db, step).Ok? && (step.CommitStep? || step.DeleteStep? || step.RebuildStep?)
    ensures OutboxInv(Next(db, step).outbox, Ops(Next(db, step).graph.log)) && MediaInv(Next(db, step).media)
  {
    match step
    case CommitStep(op, at, source) => CommitKeepsInv(db, op, at, source);
    case DeleteStep(space) =>
      MoveKeepsInv(db, step);
      DeleteKeepsRows(db, space);
    case RebuildStep => MoveKeepsInv(db, step);
  }

  lemma RowStepKeepsRows(db: Database, step: Step)
    requires DatabaseInv(db) && Apply(db, step).Ok? && !step.CommitStep? && !step.DeleteStep? && !step.RebuildStep?
    ensures OutboxInv(Next(db, step).outbox, Ops(db.graph.log)) && MediaInv(Next(db, step).media)
  {
    if step.PeerStep? || step.EnableStep? {
      PeerStepKeepsInv(db, step);
    } else if step.SpaceStep? || step.RequeueStep? {
      SpaceStepKeepsInv(db, step);
    } else if step.MediaStep? {
      MediaStepKeepsInv(db.media, db.outbox, step.step);
    } else {
      LeasingKeepsInv(db, step);
    }
  }

  lemma RowStepKeepsGraph(db: Database, step: Step)
    requires !step.CommitStep? && !step.DeleteStep? && !step.RebuildStep?
    ensures Next(db, step).graph == db.graph
  {
    GraphMoves(db, step);
  }

  lemma NextKeepsInv(db: Database, step: Step)
    requires DatabaseInv(db)
    ensures DatabaseInv(Next(db, step))
  {
    if Apply(db, step).Ok? {
      if step.CommitStep? || step.DeleteStep? || step.RebuildStep? {
        MoveKeepsInv(db, step);
        GraphStepKeepsRows(db, step);
      } else {
        RowStepKeepsGraph(db, step);
        RowStepKeepsRows(db, step);
      }
    }
  }

  /** Every reachable database is well formed, whatever the steps and their arguments. */
  lemma {:induction false} RunKeepsInv(db: Database, steps: seq<Step>)
    requires DatabaseInv(db)
    ensures DatabaseInv(Run(db, steps))
    decreases |steps|
  {
    if steps != [] {
      NextKeepsInv(db, steps[0]);
      RunKeepsInv(Next(db, steps[0]), steps[1..]);
    }
  }
}
