/** The client store's operation log and the tables derived from it: edges, heads, visibility, projections. */
module OperationGraph {
  import opened Wrappers
  import opened Operations

  const MAX_RECORD_PREVIEW_TEXT_CHARS: nat := 192

  datatype StoreError =
    | InvalidOperation
    | NegativeTimestamp
    | OperationConflict(id: OperationId)
    | MissingParent(id: OperationId)
    | MissingAuthorization(id: OperationId)
    | ParentMismatch(id: OperationId)
    | EntityAlreadyExists
    | InitialTombstone
    | TooManyHeads
    | Corrupt
    | Sqlite
    | UnknownPeer(peer: PeerId)
    | InvalidPeerEndpoint
    | InvalidOutboxLimit
    | InvalidLeaseDuration
    | LeaseMismatch
    | ResourceLeaseMismatch
    | InvalidResourceTransferLimit
    | ResourceDescriptorConflict
    | InvalidResourceProgress
    | DeliveryErrorTooLong
    | InvalidEntityLimit
    | InvalidPullCursor

  datatype Entry = Entry(sequence: nat, op: Operation, storedAt: int, locallyAuthored: bool)

  type Key = (SpaceId, EntityId)

  datatype Edge = Edge(child: OperationId, target: OperationId, position: nat)

  datatype HeadRow = HeadRow(space: SpaceId, entity: EntityId, schema: Schema)

  datatype VisibilityRow = VisibilityRow(schema: Schema, visibility: Visibility)

  datatype Projection = Projection(
    space: SpaceId,
    entity: EntityId,
    schema: Schema,
    visibility: Visibility,
    tombstone: bool,
    startAt: Option<int>,
    endAt: Option<int>,
    sortText: Option<string>,
    resourceCount: nat,
    mediaBytes: nat,
    previewEmoji: Option<string>,
    previewText: Option<string>,
    previewTruncated: bool)

  datatype Derived = Derived(
    parents: set<Edge>,
    authorizations: set<Edge>,
    heads: map<OperationId, HeadRow>,
    visibility: map<Key, VisibilityRow>,
    projections: map<OperationId, Projection>)

  /** `log` is the operation table in local-sequence order; sequences are never reused. */
  datatype Graph = Graph(log: seq<Entry>, lastSequence: nat, derived: Derived)

  const EMPTY_DERIVED: Derived := Derived({}, {}, map[], map[], map[])
  const EMPTY_GRAPH: Graph := Graph([], 0, EMPTY_DERIVED)

  function KeyOf(op: Operation): Key { (op.space, op.entity) }

  /** The operations of a log by identity; a later duplicate would win. */
  function Ops(log: seq<Entry>): map<OperationId, Operation> {
    if log == [] then map[]
    else Ops(log[..|log| - 1])[log[|log| - 1].op.id := log[|log| - 1].op]
  }

  // ----- row construction -----

  function ParentEdges(op: Operation): set<Edge> {
    set i | 0 <= i < |op.parents| :: Edge(op.id, op.parents[i], i)
  }

  function AuthorizationEdges(op: Operation): set<Edge> {
    set i | 0 <= i < |op.authorization| :: Edge(op.id, op.authorization[i], i)
  }

  function HeadRowOf(op: Operation): HeadRow { HeadRow(op.space, op.entity, op.schema) }

  function ParentSet(op: Operation): set<OperationId> { set i | 0 <= i < |op.parents| :: op.parents[i] }

  function InsertGraph(d: Derived, op: Operation): Derived {
    d.(parents := d.parents + ParentEdges(op),
       authorizations := d.authorizations + AuthorizationEdges(op),
       heads := (d.heads - ParentSet(op))[op.id := HeadRowOf(op)])
  }

  /** ASCII lower-casing; other characters are kept. */
  function LowerCase(s: string): string {
    seq(|s|, i requires 0 <= i < |s| => if 'A' <= s[i] <= 'Z' then (s[i] as int + 32) as char else s[i])
  }

  function MediaBytes(resources: seq<ResourceRef>): nat {
    if resources == [] then 0 else resources[0].byteLength + MediaBytes(resources[1..])
  }

  /** Whether the operation gets a client projection row. */
  predicate Projected(op: Operation) {
    match op.body
    case PutRecord(payload) => payload.PublicDocument? || IsClientSchema(op.schema)
    case PutEvent(payload) => payload.PublicDocument? || IsClientSchema(op.schema)
    case PutTag(payload) => payload.PublicDocument? || IsClientSchema(op.schema)
    case PutProfile(_) => true
    case Tombstone => IsClientSchema(op.schema)
    case _ => false
  }

  function ProjectionOf(op: Operation, visibility: Visibility): Projection {
    var resources := Resources(op.body);
    var base := Projection(op.space, op.entity, op.schema, visibility, op.body.Tombstone?, None, None, None,
                           |resources|, MediaBytes(resources), None, None, false);
    match op.body
    case PutRecord(PublicDocument(document)) =>
      var truncated := document.text.Some? && |document.text.value| > MAX_RECORD_PREVIEW_TEXT_CHARS;
      base.(startAt := Some(document.startAt), endAt := document.endAt, previewEmoji := document.emoji,
            previewText := if truncated then Some(document.text.value[..MAX_RECORD_PREVIEW_TEXT_CHARS]) else document.text,
            previewTruncated := truncated)
    case PutEvent(PublicDocument(document)) =>
      base.(startAt := Some(document.startAt), endAt := document.endAt, sortText := Some(LowerCase(document.caption)))
    case PutTag(PublicDocument(document)) => base.(sortText := Some(LowerCase(document.name)))
    case PutProfile(profile) => base.(sortText := Some(profile.handle))
    case _ => base
  }

  function InsertProjection(d: Derived, op: Operation): Result<Derived, StoreError> {
    if !Projected(op) then Ok(d)
    else
      var key := KeyOf(op);
      var declared := DeclaredVisibility(op.body);
      if declared.Some? && op.parents == [] then
        if key in d.visibility then Err(Sqlite)
        else Ok(d.(visibility := d.visibility[key := VisibilityRow(op.schema, declared.value)],
                   projections := d.projections[op.id := ProjectionOf(op, declared.value)]))
      else if key !in d.visibility then Err(Sqlite)
      else if declared.Some? && d.visibility[key].visibility != declared.value then Err(InvalidOperation)
      else Ok(d.(projections := d.projections[op.id := ProjectionOf(op, d.visibility[key].visibility)]))
  }

  function Derive(d: Derived, op: Operation): Result<Derived, StoreError> {
    InsertProjection(InsertGraph(d, op), op)
  }

  // ----- admission -----

  /** First identifier of the list that the log does not hold. */
  function FirstMissing(log: seq<Entry>, ids: seq<OperationId>): Option<OperationId> {
    if ids == [] then None
    else if ids[0] !in Ops(log) then Some(ids[0])
    else FirstMissing(log, ids[1..])
  }

  function CheckReferences(log: seq<Entry>, op: Operation): Result<(), StoreError> {
    var parent := FirstMissing(log, op.parents);
    if parent.Some? then Err(MissingParent(parent.value))
    else
      var authorization := FirstMissing(log, op.authorization);
      if authorization.Some? then Err(MissingAuthorization(authorization.value)) else Ok(())
  }

  /** First parent stored under another entity or schema. */
  function FirstMismatch(log: seq<Entry>, op: Operation, parents: seq<OperationId>): Option<OperationId> {
    if parents == [] then None
    else if parents[0] in Ops(log)
            && (Ops(log)[parents[0]].entity != op.entity || Ops(log)[parents[0]].schema != op.schema) then
      Some(parents[0])
    else FirstMismatch(log, op, parents[1..])
  }

  function History(log: seq<Entry>, key: Key): set<OperationId> {
    set id | id in Ops(log) && KeyOf(Ops(log)[id]) == key
  }

  function HeadsOf(heads: map<OperationId, HeadRow>, key: Key): set<OperationId> {
    set id | id in heads && (heads[id].space, heads[id].entity) == key
  }

  function CountHeads(heads: map<OperationId, HeadRow>, parents: seq<OperationId>): nat {
    if parents == [] then 0 else (if parents[0] in heads then 1 else 0) + CountHeads(heads, parents[1..])
  }

  function CheckTopology(g: Graph, op: Operation): Result<(), StoreError> {
    var mismatch := FirstMismatch(g.log, op, op.parents);
    if mismatch.Some? then Err(ParentMismatch(mismatch.value))
    else
      var history := |History(g.log, KeyOf(op))|;
      var heads := |HeadsOf(g.derived.heads, KeyOf(op))|;
      if history > 0 && heads == 0 then Err(Corrupt)
      else if history > 0 && op.parents == [] then Err(EntityAlreadyExists)
      else if history == 0 && op.body.Tombstone? then Err(InitialTombstone)
      else if heads - CountHeads(g.derived.heads, op.parents) + 1 > MAX_CAUSAL_PARENTS then Err(TooManyHeads)
      else Ok(())
  }

  /** Admission of an operation the log does not hold yet. */
  function Admit(g: Graph, op: Operation, storedAt: int, local: bool): Result<Graph, StoreError> {
    match CheckReferences(g.log, op)
    case Err(e) => Err(e)
    case Ok(_) =>
      match CheckTopology(g, op)
      case Err(e) => Err(e)
      case Ok(_) =>
        match Derive(g.derived, op)
        case Err(e) => Err(e)
        case Ok(d) => Ok(Graph(g.log + [Entry(g.lastSequence + 1, op, storedAt, local)], g.lastSequence + 1, d))
  }

  // ----- workspace deletion and rebuild -----

  function Keep(log: seq<Entry>, space: SpaceId): seq<Entry> {
    if log == [] then []
    else
      var last := log[|log| - 1];
      Keep(log[..|log| - 1], space) + if last.op.space == space then [] else [last]
  }

  function SpaceIds(log: seq<Entry>, space: SpaceId): set<OperationId> {
    set id | id in Ops(log) && Ops(log)[id].space == space
  }

  /** Deletes a space; foreign keys refuse it while a remaining edge still targets one of its operations. */
  function DeleteSpace(g: Graph, space: SpaceId): Result<Graph, StoreError> {
    var gone := SpaceIds(g.log, space);
    var parents := set e | e in g.derived.parents && e.child !in gone;
    var authorizations := set e | e in g.derived.authorizations && e.child !in gone;
    if (exists e :: e in parents && e.target in gone) || (exists e :: e in authorizations && e.target in gone) then
      Err(Sqlite)
    else
      Ok(Graph(Keep(g.log, space), g.lastSequence,
               Derived(parents, authorizations,
                       map id | id in g.derived.heads && g.derived.heads[id].space != space :: g.derived.heads[id],
                       map k | k in g.derived.visibility && k.0 != space :: g.derived.visibility[k],
                       map id | id in g.derived.projections && g.derived.projections[id].space != space
                         :: g.derived.projections[id])))
  }

  /** Replays the log over empty tables. */
  function Rebuild(log: seq<Entry>): Result<Derived, StoreError> {
    if log == [] then Ok(EMPTY_DERIVED)
    else
      match Rebuild(log[..|log| - 1])
      case Err(e) => Err(e)
      case Ok(d) => Derive(d, log[|log| - 1].op)
  }

  // ----- reading an entity -----

  function SchemasOf(log: seq<Entry>, key: Key): set<Schema> {
    set id | id in History(log, key) :: Ops(log)[id].schema
  }
}
