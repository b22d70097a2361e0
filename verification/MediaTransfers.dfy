/** The media-transfer queue: resources referenced by operations, and one leased row per peer and direction. */
module MediaTransfers {
  import opened Wrappers
  import opened Operations
  import opened OperationGraph
  import opened Outbox

  const MAX_RESOURCE_TRANSFER_BATCH: nat := 100

  datatype Resource = Resource(
    byteLength: nat,
    locallyAvailable: bool,
    localExpected: bool,
    discoveredAt: int,
    verifiedAt: Option<int>)

  datatype Direction = Upload | Download

  datatype TransferState = WaitingLocal | TransferPending | TransferLeased | Complete | TransferRejected

  datatype Transfer = Transfer(
    state: TransferState,
    attemptCount: nat,
    nextAttemptAt: int,
    leaseId: Option<LeaseId>,
    leaseExpiresAt: Option<int>,
    remoteUploadUrl: Option<string>,
    transferredBytes: nat,
    completedAt: Option<int>,
    lastError: Option<string>)

  datatype TransferKey = TransferKey(peer: PeerId, content: ContentId, direction: Direction)

  datatype ResourceLink = ResourceLink(id: OperationId, position: nat, content: ContentId)

  type Transfers = map<TransferKey, Transfer>

  datatype Media = Media(resources: map<ContentId, Resource>, links: set<ResourceLink>, transfers: Transfers)

  const EMPTY_MEDIA: Media := Media(map[], {}, map[])

  // ----- discovery -----

  /** Stores the operation's resources from position `from` on; a known content id keeps its first length. */
  function Discover(m: Media, op: Operation, at: int, from: nat): Result<Media, StoreError>
    decreases |Resources(op.body)| - from
  {
    if from >= |Resources(op.body)| then Ok(m)
    else
      var r := Resources(op.body)[from];
      if r.contentId in m.resources && m.resources[r.contentId].byteLength != r.byteLength then
        Err(ResourceDescriptorConflict)
      else
        var resources :=
          if r.contentId in m.resources then m.resources
          else m.resources[r.contentId := Resource(r.byteLength, false, false, at, None)];
        Discover(m.(resources := resources, links := m.links + {ResourceLink(op.id, from, r.contentId)}), op, at, from + 1)
  }

  // ----- queueing -----

  function NewUpload(r: Resource, at: int): Transfer {
    Transfer(if r.locallyAvailable then TransferPending else WaitingLocal, 0, at, None, None, None, 0, None, None)
  }

  function NewDownload(r: Resource, at: int): Transfer {
    if r.locallyAvailable then Transfer(Complete, 0, at, None, None, None, r.byteLength, Some(at), None)
    else Transfer(TransferPending, 0, at, None, None, None, 0, None, None)
  }

  /** INSERT OR IGNORE. */
  function InsertMissing(transfers: Transfers, added: Transfers): Transfers { added + transfers }

  predicate LinkedIn(m: Media, log: seq<Entry>, content: ContentId, space: SpaceId) {
    exists l :: l in m.links && l.content == content && l.id in Ops(log) && Ops(log)[l.id].space == space
  }

  predicate LinkedInScope(m: Media, o: Outbox, log: seq<Entry>, peer: PeerId, content: ContentId) {
    || (peer in o.peers && o.peers[peer].credential.None? && !HasSpaces(o, peer))
    || exists l :: l in m.links && l.content == content && l.id in Ops(log)
                   && (peer, Ops(log)[l.id].space) in o.peerSpaces
  }

  function QueueUploads(m: Media, o: Outbox, log: seq<Entry>, content: ContentId, at: int, excluded: Option<PeerId>)
    : Media
  {
    if content !in m.resources then m
    else
      m.(transfers := InsertMissing(m.transfers,
        map p | p in o.peers && Pushes(o, p) && LinkedInScope(m, o, log, p, content) && excluded != Some(p)
          :: TransferKey(p, content, Upload) := NewUpload(m.resources[content], at)))
  }

  function Later(x: int, y: int): int { if x < y then y else x }

  function QueueKnownForPeer(m: Media, o: Outbox, log: seq<Entry>, peer: PeerId, fallback: int): Media {
    m.(transfers := InsertMissing(m.transfers,
      map c | c in m.resources && LinkedInScope(m, o, log, peer, c)
        :: TransferKey(peer, c, Upload) := NewUpload(m.resources[c], Later(m.resources[c].discoveredAt, fallback))))
  }

  function QueueKnownForPeerSpace(m: Media, log: seq<Entry>, peer: PeerId, space: SpaceId, fallback: int): Media {
    m.(transfers := InsertMissing(m.transfers,
      map c | c in m.resources && LinkedIn(m, log, c, space)
        :: TransferKey(peer, c, Upload) := NewUpload(m.resources[c], Later(m.resources[c].discoveredAt, fallback))))
  }

  /** One resource of a committed operation. */
  function ApplyResource(m: Media, o: Outbox, log: seq<Entry>, content: ContentId, at: int, source: CommitSource)
    : Result<Media, StoreError>
  {
    match source
    case Remote => Ok(m)
    case Local =>
      var expected :=
        if content in m.resources then m.(resources := m.resources[content := m.resources[content].(localExpected := true)])
        else m;
      Ok(QueueUploads(expected, o, log, content, at, None))
    case FromPeer(peer) =>
      if content !in m.resources || peer !in o.peers then Err(Sqlite)
      else
        var downloaded :=
          if o.peers[peer].contentReadEnabled then
            m.(transfers := InsertMissing(m.transfers,
                 map[TransferKey(peer, content, Download) := NewDownload(m.resources[content], at)]))
          else m;
        Ok(QueueUploads(downloaded, o, log, content, at, Some(peer)))
  }

  function ApplyResources(m: Media, o: Outbox, log: seq<Entry>, op: Operation, at: int, source: CommitSource, from: nat)
    : Result<Media, StoreError>
    decreases |Resources(op.body)| - from
  {
    if from >= |Resources(op.body)| then Ok(m)
    else
      match ApplyResource(m, o, log, Resources(op.body)[from].contentId, at, source)
      case Err(e) => Err(e)
      case Ok(next) => ApplyResources(next, o, log, op, at, source, from + 1)
  }

  // ----- availability -----

  /** The bytes are here: downloads of them are done, and uploads that waited may go. */
  function Localize(transfers: Transfers, content: ContentId, byteLength: nat, at: int): Transfers {
    map k | k in transfers ::
      var t := transfers[k];
      if k.content != content then t
      else if k.direction.Download? && !t.state.Complete? then
        t.(state := Complete, transferredBytes := byteLength, completedAt := Some(at),
           leaseId := None, leaseExpiresAt := None, lastError := None)
      else if k.direction.Upload? && t.state.WaitingLocal? then
        t.(state := TransferPending, nextAttemptAt := at, lastError := None)
      else t
  }

  function MarkAvailable(m: Media, content: ContentId, at: int): Media
    requires content in m.resources
  {
    var r := m.resources[content];
    m.(resources := m.resources[content := r.(locallyAvailable := true, verifiedAt := Some(at))],
       transfers := Localize(m.transfers, content, r.byteLength, at))
  }

  function MarkResourceLocal(m: Media, content: ContentId, byteLength: nat, at: int): Result<Media, StoreError> {
    if at < 0 then Err(NegativeTimestamp)
    else if byteLength > I64_MAX then Err(InvalidResourceProgress)
    else if content !in m.resources || m.resources[content].byteLength != byteLength then Err(ResourceDescriptorConflict)
    else Ok(MarkAvailable(m, content, at))
  }

  // ----- leases -----

  predicate TransferIsDue(t: Transfer, now: int) {
    || (t.state.TransferPending? && t.nextAttemptAt <= now)
    || (t.state.TransferLeased? && t.leaseExpiresAt.Some? && t.leaseExpiresAt.value <= now)
  }

  function DueTransfers(m: Media, o: Outbox, now: int): set<TransferKey> {
    set k | k in m.transfers && k.peer in o.peers && o.peers[k.peer].enabled && TransferIsDue(m.transfers[k], now)
  }

  /** Downloads first, then by attempt time, peer, and content. */
  predicate LeasedBefore(transfers: Transfers, a: TransferKey, b: TransferKey)
    requires a in transfers && b in transfers
  {
    var x, y := transfers[a].nextAttemptAt, transfers[b].nextAttemptAt;
    || (a.direction.Download? && b.direction.Upload?)
    || (a.direction == b.direction && (x < y || (x == y && (a.peer < b.peer || (a.peer == b.peer && a.content < b.content)))))
  }

  predicate IsFirst(transfers: Transfers, keys: set<TransferKey>, k: TransferKey)
    requires k in keys && keys <= transfers.Keys
  {
    forall j | j in keys :: j == k || LeasedBefore(transfers, k, j)
  }

  lemma LeaseOrderIsTotal(transfers: Transfers, a: TransferKey, b: TransferKey, c: TransferKey)
    requires a in transfers && b in transfers && c in transfers && a != b
    ensures LeasedBefore(transfers, a, b) || LeasedBefore(transfers, b, a)
    ensures LeasedBefore(transfers, a, b) && (b == c || LeasedBefore(transfers, b, c)) ==> LeasedBefore(transfers, a, c)
  {
  }

  lemma {:induction false} FirstExists(transfers: Transfers, keys: set<TransferKey>) returns (k: TransferKey)
    requires keys != {} && keys <= transfers.Keys
    ensures k in keys && IsFirst(transfers, keys, k)
    decreases keys
  {
    k :| k in keys;
    var rest := keys - {k};
    if rest == {} {
      assert keys == {k};
    } else {
      var r := FirstExists(transfers, rest);
      assert r in rest && IsFirst(transfers, rest, r);
      if LeasedBefore(transfers, r, k) {
        forall j | j in keys ensures j == r || LeasedBefore(transfers, r, j) { assert j == k || j in rest; }
        k := r;
      } else {
        forall j | j in rest ensures LeasedBefore(transfers, k, j) { LeaseOrderIsTotal(transfers, k, r, j); }
      }
    }
  }

  lemma SomeFirst(transfers: Transfers, keys: set<TransferKey>)
    requires keys != {} && keys <= transfers.Keys
    ensures exists k :: k in keys && IsFirst(transfers, keys, k)
  {
    var k := FirstExists(transfers, keys);
  }

  /** The first `n` keys in lease order. */
  function InLeaseOrder(transfers: Transfers, keys: set<TransferKey>, n: nat): seq<TransferKey>
    requires keys <= transfers.Keys
    decreases n
  {
    if n == 0 || keys == {} then []
    else
      SomeFirst(transfers, keys);
      var k :| k in keys && IsFirst(transfers, keys, k);
      [k] + InLeaseOrder(transfers, keys - {k}, n - 1)
  }

  /** The selection is the least due rows, in order, and as many as the limit allows. */
  lemma {:induction false} SelectionIsLeast(transfers: Transfers, keys: set<TransferKey>, n: nat)
    requires keys <= transfers.Keys
    ensures
      var s := InLeaseOrder(transfers, keys, n);
      && |s| == (if |keys| <= n then |keys| else n)
      && (forall i | 0 <= i < |s| :: s[i] in keys)
      && (forall i, j | 0 <= i < j < |s| :: LeasedBefore(transfers, s[i], s[j]))
      && (forall i, k | 0 <= i < |s| && k in keys && k !in s :: LeasedBefore(transfers, s[i], k))
    decreases n
  {
    if n != 0 && keys != {} {
      var s := InLeaseOrder(transfers, keys, n);
      SelectionIsLeast(transfers, keys - {s[0]}, n - 1);
      var rest := InLeaseOrder(transfers, keys - {s[0]}, n - 1);
      assert s == [s[0]] + rest;
      assert IsFirst(transfers, keys, s[0]);
    }
  }

  function Selected(m: Media, o: Outbox, now: int, limit: nat): seq<TransferKey> {
    InLeaseOrder(m.transfers, DueTransfers(m, o, now), limit)
  }

  predicate TransferAttemptsFit(m: Media, selected: seq<TransferKey>) {
    forall k | k in selected && k in m.transfers :: m.transfers[k].attemptCount < U32_MAX
  }

  function LeaseTransfer(t: Transfer, lease: LeaseId, expires: int): Transfer {
    t.(state := TransferLeased, attemptCount := t.attemptCount + 1, leaseId := Some(lease), leaseExpiresAt := Some(expires))
  }

  function LeaseSelected(transfers: Transfers, selected: seq<TransferKey>, lease: LeaseId, expires: int): Transfers {
    map k | k in transfers :: if k in selected then LeaseTransfer(transfers[k], lease, expires) else transfers[k]
  }

  function LeaseTransfers(m: Media, o: Outbox, now: int, leaseMs: int, limit: nat, lease: LeaseId)
    : Result<(Media, seq<TransferKey>), StoreError>
  {
    if now < 0 then Err(NegativeTimestamp)
    else if !(1 <= limit <= MAX_RESOURCE_TRANSFER_BATCH) then Err(InvalidResourceTransferLimit)
    else if !ValidLease(now, leaseMs) then Err(InvalidLeaseDuration)
    else
      var selected := Selected(m, o, now, limit);
      if !TransferAttemptsFit(m, selected) then Err(Corrupt)
      else Ok((m.(transfers := LeaseSelected(m.transfers, selected, lease, now + leaseMs)), selected))
  }

  predicate HoldsTransfer(m: Media, k: TransferKey, lease: LeaseId) {
    k in m.transfers && m.transfers[k].state.TransferLeased? && m.transfers[k].leaseId == Some(lease)
  }

  function Progress(m: Media, k: TransferKey, lease: LeaseId, bytes: nat, url: Option<string>): Result<Media, StoreError> {
    if bytes > I64_MAX then Err(InvalidResourceProgress)
    else if !HoldsTransfer(m, k, lease) || k.content !in m.resources || bytes > m.resources[k.content].byteLength then
      Err(ResourceLeaseMismatch)
    else
      Ok(m.(transfers := m.transfers[k :=
        m.transfers[k].(transferredBytes := bytes, remoteUploadUrl := if k.direction.Upload? then url else None)]))
  }

  /** The row as its holder ended it. */
  function EndedRow(r: Resource, t: Transfer, outcome: Outcome, at: int, error: Option<string>): Transfer {
    var done := outcome.Acknowledge?;
    t.(state := (match outcome case Acknowledge => Complete case Retry => TransferPending case Reject => TransferRejected),
       nextAttemptAt := at, leaseId := None, leaseExpiresAt := None,
       transferredBytes := if done then r.byteLength else t.transferredBytes,
       completedAt := if done then Some(at) else None,
       lastError := error)
  }

  /** Ends a lease as complete, pending again, or rejected; a completed download makes the bytes local. */
  function FinishTransfer(m: Media, k: TransferKey, lease: LeaseId, outcome: Outcome, at: int, error: Option<string>)
    : Result<Media, StoreError>
  {
    if at < 0 then Err(NegativeTimestamp)
    else if error.Some? && |error.value| > MAX_ERROR_BYTES then Err(DeliveryErrorTooLong)
    else if !HoldsTransfer(m, k, lease) || k.content !in m.resources then Err(ResourceLeaseMismatch)
    else
      var row := EndedRow(m.resources[k.content], m.transfers[k], outcome, at, error);
      var ended := m.(transfers := m.transfers[k := row]);
      Ok(if outcome.Acknowledge? && k.direction.Download? then MarkAvailable(ended, k.content, at) else ended)
  }

  function ContinueTransfer(m: Media, k: TransferKey, lease: LeaseId, at: int): Result<Media, StoreError> {
    if at < 0 then Err(NegativeTimestamp)
    else if !HoldsTransfer(m, k, lease) then Err(ResourceLeaseMismatch)
    else
      Ok(m.(transfers := m.transfers[k :=
        m.transfers[k].(state := TransferPending, attemptCount := 0, nextAttemptAt := at, leaseId := None,
                        leaseExpiresAt := None, completedAt := None, lastError := None)]))
  }

  /** The bytes an upload needs turned out to be missing locally. */
  function WaitForLocal(m: Media, peer: PeerId, content: ContentId, lease: LeaseId, at: int, error: string)
    : Result<Media, StoreError>
  {
    var k := TransferKey(peer, content, Upload);
    if at < 0 then Err(NegativeTimestamp)
    else if |error| > MAX_ERROR_BYTES then Err(DeliveryErrorTooLong)
    else if !HoldsTransfer(m, k, lease) || content !in m.resources then Err(ResourceLeaseMismatch)
    else
      Ok(m.(transfers := m.transfers[k :=
              m.transfers[k].(state := WaitingLocal, nextAttemptAt := at, leaseId := None, leaseExpiresAt := None,
                              lastError := Some(error))],
            resources := m.resources[content :=
              m.resources[content].(locallyAvailable := false, localExpected := true, verifiedAt := None)]))
  }

  /** The media side of reopening a peer's space: unfinished uploads of that space start over. */
  function RequeueUploads(m: Media, log: seq<Entry>, peer: PeerId, space: SpaceId, now: int): Media {
    var queued := QueueKnownForPeerSpace(m, log, peer, space, now);
    queued.(transfers :=
      map k | k in queued.transfers ::
        var t := queued.transfers[k];
        if k.peer == peer && k.direction.Upload? && !t.state.Complete? && LinkedIn(queued, log, k.content, space)
           && k.content in queued.resources then
          NewUpload(queued.resources[k.content], now)
        else t)
  }

  function ForgetLinks(m: Media, gone: set<OperationId>): Media {
    m.(links := set l | l in m.links && l.id !in gone)
  }

  // ----- the invariant of the queue -----

  ghost predicate TransferOk(r: Resource, direction: Direction, t: Transfer) {
    && (t.state.WaitingLocal? ==> direction.Upload? && !r.locallyAvailable)
    && (direction.Download? && r.locallyAvailable ==> t.state.Complete?)
    && (t.state.Complete? ==> t.transferredBytes == r.byteLength)
    && t.transferredBytes <= r.byteLength
    && (t.state.TransferLeased? <==> t.leaseId.Some?)
    && (t.state.TransferLeased? <==> t.leaseExpiresAt.Some?)
    && (t.state.Complete? <==> t.completedAt.Some?)
    && (direction.Download? ==> t.remoteUploadUrl.None?)
  }

  ghost predicate MediaInv(m: Media) {
    && (forall k | k in m.transfers ::
          k.content in m.resources && TransferOk(m.resources[k.content], k.direction, m.transfers[k]))
    && (forall l | l in m.links :: l.content in m.resources)
  }

  /** Lengths are immutable and nothing is forgotten. */
  ghost predicate KeepsResources(m: Media, next: Media) {
    && (forall c | c in m.resources :: c in next.resources && next.resources[c].byteLength == m.resources[c].byteLength)
    && (forall k | k in m.transfers :: k in next.transfers)
  }

  lemma {:induction false} DiscoverKeepsInv(m: Media, op: Operation, at: int, from: nat)
    requires MediaInv(m) && Discover(m, op, at, from).Ok?
    ensures MediaInv(Discover(m, op, at, from).value) && KeepsResources(m, Discover(m, op, at, from).value)
    decreases |Resources(op.body)| - from
  {
    if from < |Resources(op.body)| {
      var r := Resources(op.body)[from];
      var resources :=
        if r.contentId in m.resources then m.resources
        else m.resources[r.contentId := Resource(r.byteLength, false, false, at, None)];
      var next := m.(resources := resources, links := m.links + {ResourceLink(op.id, from, r.contentId)});
      DiscoverKeepsInv(next, op, at, from + 1);
    }
  }

  lemma QueueUploadsKeepsInv(m: Media, o: Outbox, log: seq<Entry>, content: ContentId, at: int, excluded: Option<PeerId>)
    requires MediaInv(m)
    ensures MediaInv(QueueUploads(m, o, log, content, at, excluded))
    ensures KeepsResources(m, QueueUploads(m, o, log, content, at, excluded))
  {
  }

  lemma QueueKnownForPeerKeepsInv(m: Media, o: Outbox, log: seq<Entry>, peer: PeerId, fallback: int)
    requires MediaInv(m)
    ensures MediaInv(QueueKnownForPeer(m, o, log, peer, fallback))
  {
  }

  lemma QueueKnownForSpaceKeepsInv(m: Media, log: seq<Entry>, peer: PeerId, space: SpaceId, fallback: int)
    requires MediaInv(m)
    ensures MediaInv(QueueKnownForPeerSpace(m, log, peer, space, fallback))
  {
  }

  lemma ApplyResourceKeepsInv(m: Media, o: Outbox, log: seq<Entry>, content: ContentId, at: int, source: CommitSource)
    requires MediaInv(m) && ApplyResource(m, o, log, content, at, source).Ok?
    ensures MediaInv(ApplyResource(m, o, log, content, at, source).value)
    ensures KeepsResources(m, ApplyResource(m, o, log, content, at, source).value)
  {
    match source
    case Remote =>
    case Local =>
      if content in m.resources {
        var expected := m.(resources := m.resources[content := m.resources[content].(localExpected := true)]);
        QueueUploadsKeepsInv(expected, o, log, content, at, None);
      }
    case FromPeer(peer) =>
      var downloaded :=
        if o.peers[peer].contentReadEnabled then
          m.(transfers := InsertMissing(m.transfers,
               map[TransferKey(peer, content, Download) := NewDownload(m.resources[content], at)]))
        else m;
      QueueUploadsKeepsInv(downloaded, o, log, content, at, Some(peer));
  }

  lemma {:induction false} ApplyResourcesKeepsInv(m: Media, o: Outbox, log: seq<Entry>, op: Operation, at: int,
                                                  source: CommitSource, from: nat)
    requires MediaInv(m) && ApplyResources(m, o, log, op, at, source, from).Ok?
    ensures MediaInv(ApplyResources(m, o, log, op, at, source, from).value)
    ensures KeepsResources(m, ApplyResources(m, o, log, op, at, source, from).value)
    decreases |Resources(op.body)| - from
  {
    if from < |Resources(op.body)| {
      var content := Resources(op.body)[from].contentId;
      ApplyResourceKeepsInv(m, o, log, content, at, source);
      var next := ApplyResource(m, o, log, content, at, source).value;
      ApplyResourcesKeepsInv(next, o, log, op, at, source, from + 1);
    }
  }

  /** Marking bytes local keeps the invariant for any row state, including rows that were leased. */
  lemma MarkAvailableKeepsInv(m: Media, content: ContentId, at: int)
    requires content in m.resources
    requires forall k | k in m.transfers :: k.content in m.resources
    requires forall k | k in m.transfers :: TransferOk(m.resources[k.content], k.direction, m.transfers[k])
    requires forall l | l in m.links :: l.content in m.resources
    ensures MediaInv(MarkAvailable(m, content, at)) && KeepsResources(m, MarkAvailable(m, content, at))
  {
  }

  lemma LeaseTransfersKeepsInv(m: Media, o: Outbox, now: int, leaseMs: int, limit: nat, lease: LeaseId)
    requires MediaInv(m) && LeaseTransfers(m, o, now, leaseMs, limit, lease).Ok?
    ensures MediaInv(LeaseTransfers(m, o, now, leaseMs, limit, lease).value.0)
  {
    SelectionIsLeast(m.transfers, DueTransfers(m, o, now), limit);
    var selected := Selected(m, o, now, limit);
    forall k | k in selected ensures k in m.transfers && TransferIsDue(m.transfers[k], now) {
      assert k in DueTransfers(m, o, now);
    }
  }

  lemma ProgressKeepsInv(m: Media, k: TransferKey, lease: LeaseId, bytes: nat, url: Option<string>)
    requires MediaInv(m) && Progress(m, k, lease, bytes, url).Ok?
    ensures MediaInv(Progress(m, k, lease, bytes, url).value)
  {
  }

  /** The row of another transfer after a finish: a finished download makes its bytes local, which completes every
      download of them and lets every upload that waited for them be leased from then on. */
  ghost predicate OtherRow(before: Transfer, after: Transfer, other: TransferKey, k: TransferKey, outcome: Outcome, at: int) {
    if !(outcome.Acknowledge? && k.direction.Download? && other.content == k.content) then after == before
    else if other.direction.Download? then after.state.Complete?
    else if before.state.WaitingLocal? then forall now :: TransferIsDue(after, now) <==> at <= now
    else after == before
  }

  /** Finishing a transfer keeps the invariant, ends the row, makes the bytes of a completed download local, and moves the
      other rows exactly as far as that entails. */
  lemma FinishTransferKeepsInv(m: Media, k: TransferKey, lease: LeaseId, outcome: Outcome, at: int, error: Option<string>)
    requires MediaInv(m) && FinishTransfer(m, k, lease, outcome, at, error).Ok?
    ensures
      var next := FinishTransfer(m, k, lease, outcome, at, error).value;
      && MediaInv(next) && next.transfers.Keys == m.transfers.Keys && next.links == m.links && KeepsResources(m, next)
      && k in m.transfers && next.transfers[k] == EndedRow(m.resources[k.content], m.transfers[k], outcome, at, error)
      && (next.resources[k.content].locallyAvailable <==>
            m.resources[k.content].locallyAvailable || (outcome.Acknowledge? && k.direction.Download?))
      && (forall other | other in m.transfers && other != k :: OtherRow(m.transfers[other], next.transfers[other], other, k, outcome, at))
  {
    var t := m.transfers[k];
    assert TransferOk(m.resources[k.content], k.direction, t);
    if outcome.Acknowledge? && k.direction.Download? {
      var ended := m.(transfers := m.transfers[k := EndedRow(m.resources[k.content], t, outcome, at, error)]);
      MarkAvailableKeepsInv(ended, k.content, at);
    }
  }

  lemma OtherTransfersKeepInv(m: Media, k: TransferKey, lease: LeaseId, at: int, error: string)
    requires MediaInv(m)
    ensures ContinueTransfer(m, k, lease, at).Ok? ==> MediaInv(ContinueTransfer(m, k, lease, at).value)
    ensures WaitForLocal(m, k.peer, k.content, lease, at, error).Ok? ==>
              MediaInv(WaitForLocal(m, k.peer, k.content, lease, at, error).value)
  {
  }

  lemma RequeueUploadsKeepsInv(m: Media, log: seq<Entry>, peer: PeerId, space: SpaceId, now: int)
    requires MediaInv(m)
    ensures MediaInv(RequeueUploads(m, log, peer, space, now))
  {
    var queued := QueueKnownForPeerSpace(m, log, peer, space, now);
    QueueKnownForSpaceKeepsInv(m, log, peer, space, now);
  }

  // ----- the rows and links of a committed operation -----

  lemma {:induction false} DiscoverLinks(m: Media, op: Operation, at: int, from: nat, i: nat)
    requires Discover(m, op, at, from).Ok? && from <= i < |Resources(op.body)|
    ensures
      var next := Discover(m, op, at, from).value;
      && m.links <= next.links && ResourceLink(op.id, i, Resources(op.body)[i].contentId) in next.links
      && m.resources.Keys <= next.resources.Keys && Resources(op.body)[i].contentId in next.resources
    decreases |Resources(op.body)| - from
  {
    var r := Resources(op.body)[from];
    var resources :=
      if r.contentId in m.resources then m.resources
      else m.resources[r.contentId := Resource(r.byteLength, false, false, at, None)];
    var next := m.(resources := resources, links := m.links + {ResourceLink(op.id, from, r.contentId)});
    if from < i {
      DiscoverLinks(next, op, at, from + 1, i);
    } else {
      DiscoverGrows(next, op, at, from + 1);
    }
  }

  lemma {:induction false} DiscoverGrows(m: Media, op: Operation, at: int, from: nat)
    requires Discover(m, op, at, from).Ok?
    ensures m.links <= Discover(m, op, at, from).value.links
    ensures m.resources.Keys <= Discover(m, op, at, from).value.resources.Keys
    decreases |Resources(op.body)| - from
  {
    if from < |Resources(op.body)| {
      var r := Resources(op.body)[from];
      var resources :=
        if r.contentId in m.resources then m.resources
        else m.resources[r.contentId := Resource(r.byteLength, false, false, at, None)];
      DiscoverGrows(m.(resources := resources, links := m.links + {ResourceLink(op.id, from, r.contentId)}), op, at, from + 1);
    }
  }

  /** Rows, links and resources survive queueing. */
  ghost predicate KeepsRows(m: Media, next: Media) {
    m.transfers.Keys <= next.transfers.Keys && next.links == m.links && next.resources.Keys == m.resources.Keys
  }

  lemma ApplyOneKeepsRows(m: Media, o: Outbox, log: seq<Entry>, content: ContentId, at: int, source: CommitSource)
    requires ApplyResource(m, o, log, content, at, source).Ok?
    ensures KeepsRows(m, ApplyResource(m, o, log, content, at, source).value)
  {
  }

  lemma {:induction false} ApplyAllKeepsRows(m: Media, o: Outbox, log: seq<Entry>, op: Operation, at: int,
                                             source: CommitSource, from: nat)
    requires ApplyResources(m, o, log, op, at, source, from).Ok?
    ensures KeepsRows(m, ApplyResources(m, o, log, op, at, source, from).value)
    decreases |Resources(op.body)| - from
  {
    if from < |Resources(op.body)| {
      var content := Resources(op.body)[from].contentId;
      ApplyOneKeepsRows(m, o, log, content, at, source);
      ApplyAllKeepsRows(ApplyResource(m, o, log, content, at, source).value, o, log, op, at, source, from + 1);
    }
  }

  /** The peer is pushed to and the operation's space is configured for it. */
  predicate Wants(o: Outbox, log: seq<Entry>, peer: PeerId, id: OperationId) {
    Pushes(o, peer) && id in Ops(log) && (peer, Ops(log)[id].space) in o.peerSpaces
  }

  lemma ApplyOneQueues(m: Media, o: Outbox, log: seq<Entry>, link: ResourceLink, at: int, source: CommitSource, peer: PeerId)
    requires ApplyResource(m, o, log, link.content, at, source).Ok? && !source.Remote? && source != FromPeer(peer)
    requires link in m.links && link.content in m.resources && Wants(o, log, peer, link.id)
    ensures TransferKey(peer, link.content, Upload) in ApplyResource(m, o, log, link.content, at, source).value.transfers
  {
    assert LinkedInScope(m, o, log, peer, link.content);
  }

  /** Every resource of an announced operation gets an upload row for every peer that wants its space. */
  lemma {:induction false} ApplyQueuesUploads(m: Media, o: Outbox, log: seq<Entry>, op: Operation, at: int,
                                              source: CommitSource, from: nat, i: nat, peer: PeerId)
    requires ApplyResources(m, o, log, op, at, source, from).Ok? && !source.Remote? && source != FromPeer(peer)
    requires from <= i < |Resources(op.body)| && Wants(o, log, peer, op.id)
    requires ResourceLink(op.id, i, Resources(op.body)[i].contentId) in m.links && Resources(op.body)[i].contentId in m.resources
    ensures TransferKey(peer, Resources(op.body)[i].contentId, Upload)
            in ApplyResources(m, o, log, op, at, source, from).value.transfers
    decreases i - from
  {
    var content := Resources(op.body)[from].contentId;
    var next := ApplyResource(m, o, log, content, at, source).value;
    ApplyOneKeepsRows(m, o, log, content, at, source);
    if from < i {
      ApplyQueuesUploads(next, o, log, op, at, source, from + 1, i, peer);
    } else {
      ApplyOneQueues(m, o, log, ResourceLink(op.id, i, content), at, source, peer);
      ApplyAllKeepsRows(next, o, log, op, at, source, from + 1);
    }
  }
}
