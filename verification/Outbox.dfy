/** Per-peer delivery queues: which operations are queued for whom, and the lease on each row. */
module Outbox {
  import opened Wrappers
  import opened Operations
  import opened OperationGraph

  type LeaseId = nat

  const MAX_OUTBOX_BATCH: nat := 100
  const MAX_ERROR_BYTES: nat := 2_048
  const MAX_ENDPOINT_BYTES: nat := 2_048
  const I64_MAX: int := 0x7fff_ffff_ffff_ffff
  const U32_MAX: nat := 0xffff_ffff

  datatype CommitSource = Local | Remote | FromPeer(peer: PeerId)

  datatype Peer = Peer(
    endpoint: string,
    enabled: bool,
    pushEnabled: bool,
    contentReadEnabled: bool,
    credential: Option<string>,
    addedAt: int)

  datatype ReadMode = SupervisorBearer | Paired(session: nat, grantId: OperationId)

  datatype PeerSpace = PeerSpace(readMode: ReadMode, pullAfter: nat, nextPullAt: int)

  datatype DeliveryState = Pending | Leased | Acknowledged | Rejected

  datatype Delivery = Delivery(
    state: DeliveryState,
    attemptCount: nat,
    nextAttemptAt: int,
    leaseId: Option<LeaseId>,
    leaseExpiresAt: Option<int>,
    acknowledgedAt: Option<int>,
    lastError: Option<string>)

  type DeliveryKey = (PeerId, OperationId)

  type Deliveries = map<DeliveryKey, Delivery>

  datatype Outbox = Outbox(
    peers: map<PeerId, Peer>,
    peerSpaces: map<(PeerId, SpaceId), PeerSpace>,
    deliveries: Deliveries)

  const EMPTY_OUTBOX: Outbox := Outbox(map[], map[], map[])

  function Queued(at: int): Delivery { Delivery(Pending, 0, at, None, None, None, None) }

  // ----- scope -----

  predicate HasSpaces(o: Outbox, peer: PeerId) { exists k :: k in o.peerSpaces && k.0 == peer }

  /** Configured spaces scope a peer; only a credential-less peer without any is unscoped. */
  predicate InScope(o: Outbox, peer: PeerId, space: SpaceId) {
    || (peer in o.peers && o.peers[peer].credential.None? && !HasSpaces(o, peer))
    || (peer, space) in o.peerSpaces
  }

  predicate Pushes(o: Outbox, peer: PeerId) { peer in o.peers && o.peers[peer].enabled && o.peers[peer].pushEnabled }

  /** INSERT OR IGNORE of pending rows; `added` gives each new row its first attempt time. */
  function Enqueue(deliveries: Deliveries, added: map<DeliveryKey, int>): Deliveries {
    map k | k in added.Keys + deliveries.Keys :: if k in deliveries then deliveries[k] else Queued(added[k])
  }

  function EnqueueOps(o: Outbox, peer: PeerId, ids: set<OperationId>, at: int): Outbox {
    o.(deliveries := Enqueue(o.deliveries, map id | id in ids :: (peer, id) := at))
  }

  // ----- commits -----

  function RecipientsOf(o: Outbox, space: SpaceId, source: CommitSource): set<PeerId> {
    set p | p in o.peers && Pushes(o, p) && InScope(o, p, space) && source != FromPeer(p)
  }

  /** The source peer already has the operation: its row becomes acknowledged whatever it was. */
  function AcknowledgeSource(deliveries: Deliveries, peer: PeerId, id: OperationId, at: int): Deliveries {
    var k := (peer, id);
    deliveries[k :=
      if k in deliveries then
        deliveries[k].(state := Acknowledged, leaseId := None, leaseExpiresAt := None,
                       acknowledgedAt := Some(at), lastError := None)
      else Delivery(Acknowledged, 0, at, None, None, Some(at), None)]
  }

  function ApplySource(o: Outbox, op: Operation, at: int, source: CommitSource): Result<Outbox, StoreError> {
    if source.FromPeer? && source.peer !in o.peers then Err(UnknownPeer(source.peer))
    else if source.Remote? then Ok(o)
    else
      var queued := Enqueue(o.deliveries, map p | p in RecipientsOf(o, op.space, source) :: (p, op.id) := at);
      Ok(o.(deliveries := if source.FromPeer? then AcknowledgeSource(queued, source.peer, op.id, at) else queued))
  }

  // ----- peer configuration -----

  predicate ValidCredential(c: string) {
    0 < |c| <= 256 && forall i | 0 <= i < |c| :: c[i] as int < 128 && c[i] !in {' ', '\t', '\n', '\r'}
  }

  function ClientIds(o: Outbox, log: seq<Entry>, peer: PeerId): set<OperationId> {
    set id | id in Ops(log) && IsClientSchema(Ops(log)[id].schema) && InScope(o, peer, Ops(log)[id].space)
  }

  function ClientSpaceIds(log: seq<Entry>, space: SpaceId): set<OperationId> {
    set id | id in SpaceIds(log, space) && IsClientSchema(Ops(log)[id].schema)
  }

  function UpsertPeer(o: Outbox, log: seq<Entry>, id: PeerId, config: Peer): Result<Outbox, StoreError> {
    if config.addedAt < 0 then Err(NegativeTimestamp)
    else if config.endpoint == "" || |config.endpoint| > MAX_ENDPOINT_BYTES then Err(InvalidPeerEndpoint)
    else if config.credential.Some? && !ValidCredential(config.credential.value) then Err(InvalidPeerEndpoint)
    else
      var row := if id in o.peers then config.(addedAt := o.peers[id].addedAt) else config;
      var stored := o.(peers := o.peers[id := row]);
      Ok(if config.enabled && config.pushEnabled then
           EnqueueOps(stored, id, ClientIds(stored, log, id), config.addedAt)
         else stored)
  }

  /** Re-enabling queues every operation in scope, each at its own storage time. */
  function SetPeerEnabled(o: Outbox, log: seq<Entry>, id: PeerId, enabled: bool): Result<Outbox, StoreError> {
    if id !in o.peers then Err(UnknownPeer(id))
    else
      var stored := o.(peers := o.peers[id := o.peers[id].(enabled := enabled)]);
      Ok(if Pushes(stored, id) then
           stored.(deliveries := Enqueue(stored.deliveries,
             map e | e in log && InScope(stored, id, e.op.space) :: (id, e.op.id) := StoredAt(log, e.op.id)))
         else stored)
  }

  function StoredAt(log: seq<Entry>, id: OperationId): int {
    if log == [] then 0
    else if log[|log| - 1].op.id == id then log[|log| - 1].storedAt
    else StoredAt(log[..|log| - 1], id)
  }

  function ConfigurePeerSpace(o: Outbox, log: seq<Entry>, peer: PeerId, space: SpaceId, config: PeerSpace)
    : Result<Outbox, StoreError>
  {
    if config.nextPullAt < 0 || config.pullAfter > I64_MAX then Err(InvalidPullCursor)
    else if peer !in o.peers then Err(UnknownPeer(peer))
    else
      var row := if (peer, space) in o.peerSpaces then o.peerSpaces[(peer, space)].(readMode := config.readMode) else config;
      var stored := o.(peerSpaces := o.peerSpaces[(peer, space) := row]);
      Ok(if Pushes(stored, peer) then
           EnqueueOps(stored, peer, if config.readMode.Paired? then SpaceIds(log, space) else ClientSpaceIds(log, space),
                      config.nextPullAt)
         else stored)
  }

  /** A new session reopens everything of the space that the peer has not acknowledged. */
  function Requeue(o: Outbox, log: seq<Entry>, peer: PeerId, space: SpaceId, now: int): Result<Outbox, StoreError> {
    if now < 0 then Err(NegativeTimestamp)
    else if (peer, space) !in o.peerSpaces then Err(UnknownPeer(peer))
    else
      var added := EnqueueOps(o, peer, ClientSpaceIds(log, space), now);
      Ok(added.(deliveries :=
        map k | k in added.deliveries ::
          if k.0 == peer && k.1 in SpaceIds(log, space) && !added.deliveries[k].state.Acknowledged? then Queued(now)
          else added.deliveries[k]))
  }

  // ----- leases -----

  predicate IsDue(d: Delivery, now: int) {
    || (d.state.Pending? && d.nextAttemptAt <= now)
    || (d.state.Leased? && d.leaseExpiresAt.Some? && d.leaseExpiresAt.value <= now)
  }

  /** Due rows of an enabled peer, in local-sequence order. */
  function Due(o: Outbox, log: seq<Entry>, peer: PeerId, now: int): seq<Operation> {
    if log == [] || peer !in o.peers || !o.peers[peer].enabled then []
    else
      var k := (peer, log[0].op.id);
      (if k in o.deliveries && IsDue(o.deliveries[k], now) then [log[0].op] else []) + Due(o, log[1..], peer, now)
  }

  function Take<T>(s: seq<T>, n: nat): seq<T> { if |s| <= n then s else s[..n] }

  function LeaseRow(d: Delivery, lease: LeaseId, expires: int): Delivery {
    d.(state := Leased, attemptCount := d.attemptCount + 1, leaseId := Some(lease), leaseExpiresAt := Some(expires))
  }

  function LeaseRows(deliveries: Deliveries, peer: PeerId, ops: seq<Operation>, lease: LeaseId, expires: int): Deliveries {
    map k | k in deliveries ::
      if k.0 == peer && exists i :: 0 <= i < |ops| && ops[i].id == k.1 then LeaseRow(deliveries[k], lease, expires)
      else deliveries[k]
  }

  predicate ValidLease(now: int, leaseMs: int) { 0 < leaseMs <= I64_MAX && now + leaseMs <= I64_MAX }

  predicate AttemptsFit(deliveries: Deliveries, peer: PeerId, ops: seq<Operation>) {
    forall i | 0 <= i < |ops| :: (peer, ops[i].id) in deliveries ==> deliveries[(peer, ops[i].id)].attemptCount < U32_MAX
  }

  function LeaseDue(o: Outbox, log: seq<Entry>, peer: PeerId, now: int, leaseMs: int, limit: nat, lease: LeaseId)
    : Result<(Outbox, seq<Operation>), StoreError>
  {
    if now < 0 then Err(NegativeTimestamp)
    else if !(1 <= limit <= MAX_OUTBOX_BATCH) then Err(InvalidOutboxLimit)
    else if !ValidLease(now, leaseMs) then Err(InvalidLeaseDuration)
    else
      var batch := Take(Due(o, log, peer, now), limit);
      if !AttemptsFit(o.deliveries, peer, batch) then Err(Corrupt)
      else Ok((o.(deliveries := LeaseRows(o.deliveries, peer, batch, lease, now + leaseMs)), batch))
  }

  datatype Outcome = Acknowledge | Retry | Reject

  function FinishRow(d: Delivery, outcome: Outcome, at: int, error: Option<string>): Delivery {
    d.(state := (match outcome case Acknowledge => Acknowledged case Retry => Pending case Reject => Rejected),
       nextAttemptAt := at, leaseId := None, leaseExpiresAt := None,
       acknowledgedAt := if outcome.Acknowledge? then Some(at) else None, lastError := error)
  }

  predicate Holds(d: Delivery, lease: LeaseId) { d.state.Leased? && d.leaseId == Some(lease) }

  function Finish(o: Outbox, peer: PeerId, id: OperationId, lease: LeaseId, outcome: Outcome, at: int, error: Option<string>)
    : Result<Outbox, StoreError>
  {
    if at < 0 then Err(NegativeTimestamp)
    else if error.Some? && |error.value| > MAX_ERROR_BYTES then Err(DeliveryErrorTooLong)
    else if (peer, id) !in o.deliveries || !Holds(o.deliveries[(peer, id)], lease) then Err(LeaseMismatch)
    else Ok(o.(deliveries := o.deliveries[(peer, id) := FinishRow(o.deliveries[(peer, id)], outcome, at, error)]))
  }

  function Release(o: Outbox, peer: PeerId, lease: LeaseId): Outbox {
    o.(deliveries :=
      map k | k in o.deliveries ::
        if k.0 == peer && Holds(o.deliveries[k], lease) then
          o.deliveries[k].(state := Pending, leaseId := None, leaseExpiresAt := None)
        else o.deliveries[k])
  }

  /** The delivery side of deleting a workspace; `gone` are its operations. */
  function ForgetSpace(o: Outbox, space: SpaceId, gone: set<OperationId>): Outbox {
    o.(peerSpaces := map k | k in o.peerSpaces && k.1 != space :: o.peerSpaces[k],
       deliveries := map k | k in o.deliveries && k.1 !in gone :: o.deliveries[k])
  }
}
