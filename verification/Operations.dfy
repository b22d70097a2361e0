/** Signed operations, capability grants, and what envelope verification guarantees about them. */
module Operations {
  import opened Wrappers
  import opened Ordering

  // Digests and UUIDs are fixed-width byte strings compared byte by byte: big-endian numbers.
  type OperationId = nat
  type SpaceId = nat
  type ActorId = nat
  type EntityId = nat
  type ContentId = nat
  type PeerId = nat

  const NIL_ENTITY: EntityId := 0
  const MAX_CAUSAL_PARENTS: nat := 64
  const MAX_AUTHORIZATION_REFERENCES: nat := 64
  const MAX_DELEGATION_DEPTH: nat := 16
  const MAX_CONTENT_BYTE_LENGTH: nat := 1_099_511_627_776
  const MAX_RECORD_RESOURCES: nat := 64

  datatype Schema = Event | Profile | Record | SpaceGenesis | CapabilityGrant | CapabilityRevoke | Tag

  datatype Visibility = Public | Private

  datatype Action =
    | AppendOperation
    | IssueCapability
    | RevokeCapability
    | ReadSpace
    | WriteContent
    | LinkWorkspace

  datatype Grant = Grant(
    subject: ActorId,
    actions: seq<Action>,
    schemas: seq<Schema>,
    visibilities: seq<Visibility>,
    contentRoles: seq<string>,
    maxResourceByteLength: Option<nat>,
    notBefore: Option<int>,
    expiresAt: Option<int>,
    delegationDepth: nat,
    caption: string)

  datatype ResourceRef = ResourceRef(contentId: ContentId, byteLength: nat)

  datatype RecordDocument = RecordDocument(
    startAt: int,
    endAt: Option<int>,
    emoji: Option<string>,
    text: Option<string>,
    resources: seq<ResourceRef>)

  datatype EventDocument = EventDocument(startAt: int, endAt: Option<int>, caption: string)

  datatype TagDocument = TagDocument(name: string)

  datatype ProfileDocument = ProfileDocument(handle: string, avatar: Option<ResourceRef>)

  /** A client document is either readable or an opaque ciphertext with opaque resources. */
  datatype Protected<D> =
    | PublicDocument(document: D)
    | PrivateDocument(ciphertext: string, resources: seq<ResourceRef>)

  datatype Body =
    | PutRecord(record: Protected<RecordDocument>)
    | PutTag(tag: Protected<TagDocument>)
    | PutEvent(event: Protected<EventDocument>)
    | PutProfile(profile: ProfileDocument)
    | Tombstone
    | GenesisBody(controller: ActorId)
    | GrantBody(grant: Grant)
    | RevokeBody(revoked: OperationId)

  /** `sealed` is the outcome of the COSE signature check over the other fields. */
  datatype Operation = Operation(
    id: OperationId,
    space: SpaceId,
    actor: ActorId,
    entity: EntityId,
    schema: Schema,
    parents: seq<OperationId>,
    authorization: seq<OperationId>,
    occurredAt: int,
    nonce: nat,
    body: Body,
    sealed: bool)

  predicate IsClientSchema(schema: Schema) {
    schema.Record? || schema.Event? || schema.Tag? || schema.Profile?
  }

  function ProtectedVisibility<D>(payload: Protected<D>): Visibility {
    if payload.PublicDocument? then Public else Private
  }

  function DeclaredVisibility(body: Body): Option<Visibility> {
    match body
    case PutRecord(payload) => Some(ProtectedVisibility(payload))
    case PutTag(payload) => Some(ProtectedVisibility(payload))
    case PutEvent(payload) => Some(ProtectedVisibility(payload))
    case PutProfile(_) => Some(Public)
    case _ => None
  }

  function Resources(body: Body): seq<ResourceRef> {
    match body
    case PutRecord(PublicDocument(document)) => document.resources
    case PutRecord(PrivateDocument(_, resources)) => resources
    case PutProfile(profile) => if profile.avatar.Some? then [profile.avatar.value] else []
    case _ => []
  }

  // Derived orders of the source enums, and the wire-name order of schemas.
  function VisibilityRank(v: Visibility): nat { if v.Public? then 0 else 1 }

  function ActionRank(a: Action): nat {
    match a
    case AppendOperation => 0
    case IssueCapability => 1
    case RevokeCapability => 2
    case ReadSpace => 3
    case WriteContent => 4
    case LinkWorkspace => 5
  }

  /** Position of the wire name ("capability.grant", ..., "tag") in string order. */
  function SchemaNameRank(s: Schema): nat {
    match s
    case CapabilityGrant => 0
    case CapabilityRevoke => 1
    case Event => 2
    case Profile => 3
    case Record => 4
    case SpaceGenesis => 5
    case Tag => 6
  }

  predicate VisibilityLess(x: Visibility, y: Visibility) { VisibilityRank(x) < VisibilityRank(y) }
  predicate ActionLess(x: Action, y: Action) { ActionRank(x) < ActionRank(y) }
  predicate SchemaLess(x: Schema, y: Schema) { SchemaNameRank(x) < SchemaNameRank(y) }

  lemma EnumOrders()
    ensures StrictTotalOrder(VisibilityLess)
    ensures StrictTotalOrder(ActionLess)
    ensures StrictTotalOrder(SchemaLess)
  {
    assert forall x, y :: x == y || VisibilityLess(x, y) || VisibilityLess(y, x);
    assert forall x, y :: x == y || ActionLess(x, y) || ActionLess(y, x);
    assert forall x, y :: x == y || SchemaLess(x, y) || SchemaLess(y, x);
  }

  predicate GrantSetsSorted(g: Grant) {
    && StrictlySorted(g.actions, ActionLess)
    && StrictlySorted(g.schemas, SchemaLess)
    && StrictlySorted(g.visibilities, VisibilityLess)
    && StrictlySorted(g.contentRoles, StringLess)
  }

  predicate ValidGrant(g: Grant) {
    && g.actions != []
    && GrantSetsSorted(g)
    && g.delegationDepth <= MAX_DELEGATION_DEPTH
    && g.caption != ""
    && (g.notBefore.Some? ==> 0 <= g.notBefore.value)
    && (g.expiresAt.Some? ==> 0 <= g.expiresAt.value)
    && (g.notBefore.Some? && g.expiresAt.Some? ==> g.notBefore.value < g.expiresAt.value)
    && (AppendOperation in g.actions <==> g.schemas != [])
    && ((exists s :: s in g.schemas && IsClientSchema(s)) <==> g.visibilities != [])
    && (WriteContent in g.actions <==> g.contentRoles != [] && g.maxResourceByteLength.Some?)
    && (g.maxResourceByteLength.Some? ==> g.maxResourceByteLength.value <= MAX_CONTENT_BYTE_LENGTH)
  }

  predicate ValidResources(resources: seq<ResourceRef>) {
    && |resources| <= MAX_RECORD_RESOURCES
    && (forall r :: r in resources ==> r.byteLength <= MAX_CONTENT_BYTE_LENGTH)
    && (forall i, j | 0 <= i < j < |resources| :: resources[i].contentId != resources[j].contentId)
  }

  /** The schema admits this body, and the body is well formed for it. */
  predicate ValidBody(op: Operation) {
    && (op.schema.SpaceGenesis? || op.authorization != [])
    && ValidResources(Resources(op.body))
    && match (op.schema, op.body)
       case (Record, PutRecord(_)) => true
       case (Tag, PutTag(_)) => true
       case (Event, PutEvent(_)) => true
       case (Profile, PutProfile(_)) => true
       case (_, Tombstone) => IsClientSchema(op.schema)
       case (SpaceGenesis, GenesisBody(controller)) =>
         controller == op.actor && op.parents == [] && op.authorization == []
       case (CapabilityGrant, GrantBody(grant)) => ValidGrant(grant)
       case (CapabilityRevoke, RevokeBody(_)) => true
       case _ => false
  }

  /** Envelope verification: the seal holds and every signed field is canonical. */
  predicate Verified(op: Operation) {
    && op.sealed
    && op.entity != NIL_ENTITY
    && 0 <= op.occurredAt
    && |op.parents| <= MAX_CAUSAL_PARENTS
    && |op.authorization| <= MAX_AUTHORIZATION_REFERENCES
    && StrictlySorted(op.parents, NatLess)
    && StrictlySorted(op.authorization, NatLess)
    && op.id !in op.parents
    && ValidBody(op)
  }
}
