/** Transfer rows over whole runs: a live lease is exclusive, and a superseded holder is powerless. */
module TransferRuns {
  import opened Wrappers
  import opened Operations
  import opened OperationGraph
  import opened Outbox
  import opened MediaTransfers
  import opened ClientDatabase

  function RowIn(m: Media, k: TransferKey): Option<Transfer> { if k in m.transfers then Some(m.transfers[k]) else None }

  function Row(db: Database, k: TransferKey): Option<Transfer> { RowIn(db.media, k) }

  /** What a step may do to one transfer row. */
  datatype TransferEvent =
    | Quiet
    | Taken(now: int, expires: int, lease: LeaseId)
    | ByHolder(lease: LeaseId)
    | Localized
    | Reopened

  function MediaEventOf(step: MediaStep, k: TransferKey): TransferEvent {
    match step
    case MarkLocal(content, _, _) => if content == k.content then Localized else Quiet
    case LeaseMedia(now, leaseMs, _, lease) => Taken(now, now + leaseMs, lease)
    case RecordProgress(key, lease, _, _) => if key == k then ByHolder(lease) else Quiet
    case FinishMedia(key, lease, outcome, _, _) =>
      if key == k then ByHolder(lease)
      else if outcome.Acknowledge? && key.direction.Download? && key.content == k.content then Localized
      else Quiet
    case ContinueMedia(key, lease, _) => if key == k then ByHolder(lease) else Quiet
    case AwaitLocal(peer, content, lease, _, _) => if k == TransferKey(peer, content, Upload) then ByHolder(lease) else Quiet
  }

  predicate Reopens(db: Database, peer: PeerId, space: SpaceId, k: TransferKey) {
    peer == k.peer && k.direction.Upload? && LinkedIn(db.media, db.graph.log, k.content, space)
  }

  function EventOf(db: Database, step: Step, k: TransferKey): TransferEvent {
    match step
    case RequeueStep(peer, space, _) => if Reopens(db, peer, space, k) then Reopened else Quiet
    case MediaStep(mediaStep) => MediaEventOf(mediaStep, k)
    case _ => Quiet
  }

  predicate Unleased(row: Option<Transfer>) { row.Some? ==> !row.value.state.TransferLeased? }

  ghost predicate HeldBy(row: Option<Transfer>, lease: LeaseId) {
    row.Some? && row.value.state.TransferLeased? && row.value.leaseId == Some(lease)
  }

  ghost predicate RowMoves(k: TransferKey, before: Option<Transfer>, after: Option<Transfer>, e: TransferEvent) {
    match e
    case Quiet => if before.Some? then after == before else Unleased(after)
    case Taken(now, expires, lease) =>
      || after == before
      || (before.Some? && TransferIsDue(before.value, now) && after == Some(LeaseTransfer(before.value, lease, expires)))
    case ByHolder(lease) => HeldBy(before, lease) && (Unleased(after) || HeldBy(after, lease))
    case Localized => after == before || (Unleased(after) && (k.direction.Download? || !before.Some? || !before.value.state.TransferLeased?))
    case Reopened => after == before || Unleased(after)
  }

  // ----- every transaction moves every row only along the row machine -----

  /** Rows are kept as they are, and new ones carry no lease. */
  ghost predicate OnlyInserts(m: Media, next: Media) {
    forall k | k in next.transfers ::
      if k in m.transfers then next.transfers[k] == m.transfers[k] else Unleased(Some(next.transfers[k]))
  }

  ghost predicate Inserts(m: Media, next: Media) { m.transfers.Keys <= next.transfers.Keys && OnlyInserts(m, next) }

  lemma InsertsCompose(m: Media, middle: Media, next: Media)
    requires Inserts(m, middle) && Inserts(middle, next)
    ensures Inserts(m, next)
  {
  }

  lemma InsertsMove(m: Media, next: Media, k: TransferKey)
    requires Inserts(m, next)
    ensures RowMoves(k, RowIn(m, k), RowIn(next, k), Quiet)
  {
  }

  lemma QueueUploadsInserts(m: Media, o: Outbox, log: seq<Entry>, content: ContentId, at: int, excluded: Option<PeerId>)
    ensures Inserts(m, QueueUploads(m, o, log, content, at, excluded))
  {
  }

  lemma QueueForPeerInserts(m: Media, o: Outbox, log: seq<Entry>, peer: PeerId, fallback: int)
    ensures Inserts(m, QueueKnownForPeer(m, o, log, peer, fallback))
  {
  }

  lemma QueueForSpaceInserts(m: Media, log: seq<Entry>, peer: PeerId, space: SpaceId, fallback: int)
    ensures Inserts(m, QueueKnownForPeerSpace(m, log, peer, space, fallback))
  {
  }

  lemma ApplyOneInserts(m: Media, o: Outbox, log: seq<Entry>, content: ContentId, at: int, source: CommitSource)
    requires ApplyResource(m, o, log, content, at, source).Ok?
    ensures Inserts(m, ApplyResource(m, o, log, content, at, source).value)
  {
    match source
    case Remote =>
    case Local =>
      var expected :=
        if content in m.resources then m.(resources := m.resources[content := m.resources[content].(localExpected := true)])
        else m;
      QueueUploadsInserts(expected, o, log, content, at, None);
    case FromPeer(peer) =>
      var downloaded :=
        if o.peers[peer].contentReadEnabled then
          m.(transfers := InsertMissing(m.transfers,
               map[TransferKey(peer, content, Download) := NewDownload(m.resources[content], at)]))
        else m;
      QueueUploadsInserts(downloaded, o, log, content, at, Some(peer));
      InsertsCompose(m, downloaded, QueueUploads(downloaded, o, log, content, at, Some(peer)));
  }

  lemma {:induction false} ApplyAllInserts(m: Media, o: Outbox, log: seq<Entry>, op: Operation, at: int,
                                           source: CommitSource, from: nat)
    requires ApplyResources(m, o, log, op, at, source, from).Ok?
    ensures Inserts(m, ApplyResources(m, o, log, op, at, source, from).value)
    decreases |Resources(op.body)| - from
  {
    if from < |Resources(op.body)| {
      var content := Resources(op.body)[from].contentId;
      var next := ApplyResource(m, o, log, content, at, source).value;
      ApplyOneInserts(m, o, log, content, at, source);
      ApplyAllInserts(next, o, log, op, at, source, from + 1);
      InsertsCompose(m, next, ApplyResources(m, o, log, op, at, source, from).value);
    }
  }

  lemma {:induction false} DiscoverKeepsTransfers(m: Media, op: Operation, at: int, from: nat)
    requires Discover(m, op, at, from).Ok?
    ensures Discover(m, op, at, from).value.transfers == m.transfers
    decreases |Resources(op.body)| - from
  {
    if from < |Resources(op.body)| {
      var r := Resources(op.body)[from];
      var resources :=
        if r.contentId in m.resources then m.resources
        else m.resources[r.contentId := Resource(r.byteLength, false, false, at, None)];
      DiscoverKeepsTransfers(m.(resources := resources, links := m.links + {ResourceLink(op.id, from, r.contentId)}), op, at, from + 1);
    }
  }

  lemma CommitInserts(db: Database, op: Operation, at: int, source: CommitSource)
    requires Commit(db, op, at, source).Ok?
    ensures Inserts(db.media, Commit(db, op, at, source).value.media)
  {
    var stored := db;
    if op.id !in Ops(db.graph.log) {
      stored := Insert(db, op, at, source.Local?).value;
      DiscoverKeepsTransfers(db.media, op, at, 0);
    }
    var outbox := ApplySource(stored.outbox, op, at, source).value;
    ApplyAllInserts(stored.media, outbox, stored.graph.log, op, at, source, 0);
  }

  lemma LeaseMoves(m: Media, o: Outbox, now: int, leaseMs: int, limit: nat, lease: LeaseId, k: TransferKey)
    requires LeaseTransfers(m, o, now, leaseMs, limit, lease).Ok?
    ensures RowMoves(k, RowIn(m, k), RowIn(LeaseTransfers(m, o, now, leaseMs, limit, lease).value.0, k),
                     Taken(now, now + leaseMs, lease))
  {
    SelectionIsLeast(m.transfers, DueTransfers(m, o, now), limit);
    if k in Selected(m, o, now, limit) { assert k in DueTransfers(m, o, now); }
  }

  lemma MediaStepMovesRow(m: Media, o: Outbox, step: MediaStep, k: TransferKey)
    requires MediaNext(m, o, step).Ok?
    ensures RowMoves(k, RowIn(m, k), RowIn(MediaNext(m, o, step).value, k), MediaEventOf(step, k))
  {
    match step
    case LeaseMedia(now, leaseMs, limit, lease) => LeaseMoves(m, o, now, leaseMs, limit, lease, k);
    case _ =>
  }

  lemma RequeueMovesRow(db: Database, peer: PeerId, space: SpaceId, now: int, k: TransferKey)
    ensures RowMoves(k, Row(db, k), RowIn(RequeueUploads(db.media, db.graph.log, peer, space, now), k),
                     if Reopens(db, peer, space, k) then Reopened else Quiet)
  {
    QueueForSpaceInserts(db.media, db.graph.log, peer, space, now);
    QueueForSpaceLinks(db.media, db.graph.log, peer, space, now, k.content);
  }

  lemma QueueForSpaceLinks(m: Media, log: seq<Entry>, peer: PeerId, space: SpaceId, now: int, content: ContentId)
    ensures LinkedIn(QueueKnownForPeerSpace(m, log, peer, space, now), log, content, space) == LinkedIn(m, log, content, space)
  {
  }

  lemma AddPeerInserts(db: Database, peer: PeerId, config: Peer)
    requires AddPeer(db, peer, config).Ok?
    ensures Inserts(db.media, AddPeer(db, peer, config).value.media)
  {
    QueueForPeerInserts(db.media, AddPeer(db, peer, config).value.outbox, db.graph.log, peer, config.addedAt);
  }

  lemma EnablePeerInserts(db: Database, peer: PeerId, enabled: bool)
    requires EnablePeer(db, peer, enabled).Ok?
    ensures Inserts(db.media, EnablePeer(db, peer, enabled).value.media)
  {
    QueueForPeerInserts(db.media, EnablePeer(db, peer, enabled).value.outbox, db.graph.log, peer, 0);
  }

  lemma AddSpaceInserts(db: Database, peer: PeerId, space: SpaceId, config: PeerSpace)
    requires AddPeerSpace(db, peer, space, config).Ok?
    ensures Inserts(db.media, AddPeerSpace(db, peer, space, config).value.media)
  {
    QueueForSpaceInserts(db.media, db.graph.log, peer, space, config.nextPullAt);
  }

  /** Every transaction moves every transfer row only along the row machine. */
  lemma StepMovesRow(db: Database, step: Step, k: TransferKey)
    ensures if Apply(db, step).Ok? then RowMoves(k, Row(db, k), Row(Next(db, step), k), EventOf(db, step, k))
            else Row(Next(db, step), k) == Row(db, k)
  {
    if Apply(db, step).Ok? {
      match step
      case CommitStep(op, at, source) =>
        CommitInserts(db, op, at, source);
        InsertsMove(db.media, Next(db, step).media, k);
      case PeerStep(peer, config) =>
        AddPeerInserts(db, peer, config);
        InsertsMove(db.media, Next(db, step).media, k);
      case EnableStep(peer, enabled) =>
        EnablePeerInserts(db, peer, enabled);
        InsertsMove(db.media, Next(db, step).media, k);
      case SpaceStep(peer, space, config) =>
        AddSpaceInserts(db, peer, space, config);
        InsertsMove(db.media, Next(db, step).media, k);
      case RequeueStep(peer, space, now) => RequeueMovesRow(db, peer, space, now, k);
      case MediaStep(mediaStep) => MediaStepMovesRow(db.media, db.outbox, mediaStep, k);
      case _ =>
    }
  }

  // ----- superseded holders -----

  ghost predicate Held(db: Database, k: TransferKey, lease: LeaseId) { HeldBy(Row(db, k), lease) }

  ghost predicate Leases(step: Step, lease: LeaseId) {
    step.MediaStep? && step.step.LeaseMedia? && step.step.lease == lease
  }

  lemma {:induction false} LostLeaseStaysLost(db: Database, steps: seq<Step>, k: TransferKey, lease: LeaseId)
    requires !Held(db, k, lease) && forall s | s in steps :: !Leases(s, lease)
    ensures !Held(Run(db, steps), k, lease)
    decreases |steps|
  {
    if steps != [] {
      assert steps[0] in steps;
      StepMovesRow(db, steps[0], k);
      forall s | s in steps[1..] ensures !Leases(s, lease) { assert s in steps; }
      LostLeaseStaysLost(Next(db, steps[0]), steps[1..], k, lease);
    }
  }

  ghost predicate DistinctLeases(steps: seq<Step>) {
    forall i, j, lease | 0 <= i < j < |steps| :: !(Leases(steps[i], lease) && Leases(steps[j], lease))
  }

  /** Every call a holder can make under the lease. */
  ghost predicate CallsAs(step: MediaStep, k: TransferKey, lease: LeaseId) { MediaEventOf(step, k) == ByHolder(lease) }

  /** With fresh lease ids, a holder that has lost a transfer can never change it again: each of its calls is refused. */
  lemma SupersededHolderIsPowerless(db: Database, steps: seq<Step>, i: nat, j: nat, k: TransferKey, lease: LeaseId, call: MediaStep)
    requires DistinctLeases(steps) && i < j <= |steps| && Leases(steps[i], lease)
    requires !Held(Run(db, steps[..j]), k, lease) && CallsAs(call, k, lease)
    ensures !Held(Run(db, steps), k, lease) && Apply(Run(db, steps), MediaStep(call)).Err?
  {
    assert steps == steps[..j] + steps[j..];
    RunSplits(db, steps[..j], steps[j..]);
    forall s | s in steps[j..] ensures !Leases(s, lease) {
      var n :| 0 <= n < |steps[j..]| && steps[j..][n] == s;
      assert steps[j + n] == s;
    }
    LostLeaseStaysLost(Run(db, steps[..j]), steps[j..], k, lease);
    UnheldCallIsRefused(Run(db, steps), k, lease, call);
  }

  lemma UnheldCallIsRefused(db: Database, k: TransferKey, lease: LeaseId, call: MediaStep)
    requires !Held(db, k, lease) && CallsAs(call, k, lease)
    ensures Apply(db, MediaStep(call)).Err?
  {
  }

  // ----- a live lease is exclusive -----

  /** The step may change a row leased until `expires`: it finds it expired, its holder calls, its bytes turn out to be
      local, or a space that links it is reopened for its peer. */
  ghost predicate Touches(db: Database, step: Step, k: TransferKey, lease: LeaseId, expires: int) {
    && Apply(db, step).Ok?
    && match EventOf(db, step, k)
       case Quiet => false
       case Taken(now, _, _) => expires <= now
       case ByHolder(holder) => holder == lease
       case Localized => k.direction.Download?
       case Reopened => true
  }

  lemma UntouchedStep(db: Database, step: Step, k: TransferKey, lease: LeaseId, expires: int)
    requires Held(db, k, lease) && Row(db, k).value.leaseExpiresAt == Some(expires)
    requires !Touches(db, step, k, lease, expires)
    ensures Row(Next(db, step), k) == Row(db, k)
  {
    StepMovesRow(db, step, k);
  }

  /** If a leased transfer is different at the end of a run, some step observed its expiry, came from its holder, made its
      bytes local or reopened it, and the row was untouched until that step. */
  lemma {:induction false} LeaseIsExclusive(db: Database, steps: seq<Step>, k: TransferKey, lease: LeaseId, expires: int)
    returns (i: nat)
    requires Held(db, k, lease) && Row(db, k).value.leaseExpiresAt == Some(expires)
    requires Row(Run(db, steps), k) != Row(db, k)
    ensures i < |steps| && Row(Run(db, steps[..i]), k) == Row(db, k)
    ensures Touches(Run(db, steps[..i]), steps[i], k, lease, expires)
    decreases |steps|
  {
    assert steps != [];
    if Touches(db, steps[0], k, lease, expires) {
      i := 0;
    } else {
      UntouchedStep(db, steps[0], k, lease, expires);
      var rest := LeaseIsExclusive(Next(db, steps[0]), steps[1..], k, lease, expires);
      i := rest + 1;
      assert steps[..i][0] == steps[0] && steps[..i][1..] == steps[1..][..rest];
    }
  }
}
