/** Trusted space bootstrap, and who holds authority in a space that grew from one. */
module Bootstrap {
  import opened Wrappers
  import opened Ordering
  import opened Operations
  import opened Authorization
  import opened AuthorityChains
  import opened AuthorityTheorems

  const MAX_SPACE_DISPLAY_NAME_CHARS: nat := 128
  const LOCAL_WRITER_RESOURCE_LIMIT: nat := 1_073_741_824

  datatype Request = Request(displayName: string, genesis: Operation, initialGrant: Operation, receivedAt: int)

  datatype BootstrapError =
    | InvalidReceivedAt
    | InvalidOperation
    | DisplayName
    | GenesisSchema
    | GrantSchema
    | DifferentSpaces
    | GenesisBodyKind
    | GrantBodyKind
    | GenesisSigner
    | GenesisNotRoot
    | GrantSigner
    | WriterIsController
    | WriterScope
    | GrantAuthorization
    | GrantNotFirst
    | SharedEntity

  predicate IsControl(c: char) { c < ' ' || 127 <= c as int <= 159 }

  /** The exact scope of the first local writer. */
  predicate LocalWriterScope(g: Grant) {
    && g.actions == [AppendOperation, ReadSpace, WriteContent, LinkWorkspace]
    && g.schemas == [Event, Profile, Record, Tag]
    && g.visibilities == [Public, Private]
    && g.contentRoles == ["record.media"]
    && g.maxResourceByteLength == Some(LOCAL_WRITER_RESOURCE_LIMIT)
    && g.notBefore == None && g.expiresAt == None
    && g.delegationDepth == 0
  }

  function Validate(r: Request): Result<(), BootstrapError> {
    if r.receivedAt < 0 then Err(InvalidReceivedAt)
    else if !Verified(r.genesis) || !Verified(r.initialGrant) then Err(InvalidOperation)
    else if |r.displayName| == 0 || |r.displayName| > MAX_SPACE_DISPLAY_NAME_CHARS
            || exists i | 0 <= i < |r.displayName| :: IsControl(r.displayName[i]) then Err(DisplayName)
    else if !r.genesis.schema.SpaceGenesis? then Err(GenesisSchema)
    else if !r.initialGrant.schema.CapabilityGrant? then Err(GrantSchema)
    else if r.genesis.space != r.initialGrant.space then Err(DifferentSpaces)
    else if !r.genesis.body.GenesisBody? then Err(GenesisBodyKind)
    else if !r.initialGrant.body.GrantBody? then Err(GrantBodyKind)
    else
      var controller := r.genesis.body.controller;
      var grant := r.initialGrant.body.grant;
      if r.genesis.actor != controller then Err(GenesisSigner)
      else if r.genesis.parents != [] || r.genesis.authorization != [] then Err(GenesisNotRoot)
      else if r.initialGrant.actor != controller then Err(GrantSigner)
      else if grant.subject == controller then Err(WriterIsController)
      else if !LocalWriterScope(grant) then Err(WriterScope)
      else if r.initialGrant.authorization != [r.genesis.id] then Err(GrantAuthorization)
      else if r.initialGrant.parents != [] then Err(GrantNotFirst)
      else if r.genesis.entity == r.initialGrant.entity then Err(SharedEntity)
      else Ok(())
  }

  predicate Accepted(r: Request) { Validate(r) == Ok(()) }

  function Controller(r: Request): ActorId
    requires Accepted(r)
  {
    r.genesis.body.controller
  }

  function Writer(r: Request): ActorId
    requires Accepted(r)
  {
    r.initialGrant.body.grant.subject
  }

  /** A view that holds an accepted bootstrap and no other grant signed by the controller.
      Everything else in the view, including grants by any other actor, is arbitrary. */
  ghost predicate GrownFrom(r: Request, view: View) {
    && Accepted(r)
    && var space := r.genesis.space;
       && view.trustedGenesis(space) == Ok(Some(r.genesis.id))
       && view.operation(space, r.genesis.id) == Ok(Some(r.genesis))
       && view.operation(space, r.initialGrant.id) == Ok(Some(r.initialGrant))
       && forall id | IsStored(view, space, id) ::
            var op := StoredAt(view, space, id);
            IsGrantOperation(op) && op.actor == Controller(r) ==> op == r.initialGrant
  }

  /** A workspace member: may link further members, never issue in general, revoke, or delegate deeper. */
  predicate IsMember(g: Grant) {
    && LinkWorkspace in g.actions
    && IssueCapability !in g.actions
    && RevokeCapability !in g.actions
    && g.delegationDepth == 0
  }

  /** Every live grant of the space, at any distance from the genesis, is a membership grant. */
  lemma {:induction false} EveryGrantIsMembership(r: Request, view: View, now: int, subject: ActorId, c: Chain)
    requires GrownFrom(r, view)
    requires c.Link? && Justified(view, now, r.genesis.space, subject, c)
    ensures IsMember(c.op.body.grant)
    decreases c
  {
    var issuer := c.issuers[0];
    assert Justified(view, now, r.genesis.space, c.op.actor, issuer);
    if issuer.Root? {
      assert issuer.op == r.genesis;
      assert StoredAt(view, r.genesis.space, c.op.id) == c.op;
    } else {
      EveryGrantIsMembership(r, view, now, c.op.actor, issuer);
      assert Permits(AuthorityOf(issuer), Issue(c.op.body.grant));
    }
  }

  lemma WriterChain(r: Request, view: View, now: int) returns (c: Chain)
    requires GrownFrom(r, view)
    requires view.isRevoked(r.genesis.space, r.initialGrant.id) == Ok(false)
    ensures Justified(view, now, r.genesis.space, Writer(r), c)
    ensures c == Link(r.initialGrant, [Root(r.genesis)]) && Cost(c) == 2
  {
    c := Link(r.initialGrant, [Root(r.genesis)]);
    var root := Root(r.genesis);
    assert Justified(view, now, r.genesis.space, Controller(r), root);
    assert [root][1..] == [];
    assert CostAll([root]) == Cost(root) + CostAll([]);
  }

  /** A justified grant naming `actor` that permits the append and fits the visit budget. */
  ghost predicate LinkedAs(view: View, now: int, space: SpaceId, actor: ActorId, schema: Schema, visibility: Visibility,
                           c: Chain)
  {
    && c.Link? && Justified(view, now, space, actor, c)
    && Cost(c) <= MAX_AUTHORIZATION_GRAPH_VISITS
    && PermitsAppend(c.op.body.grant, schema, visibility)
  }

  lemma LinkedActorAppends(view: View, now: int, op: Operation, visibility: Visibility, c: Chain)
    requires IsClientSchema(op.schema) && (DeclaredVisibility(op.body).Some? || op.body.Tombstone?)
    requires LinkedAs(view, now, op.space, op.actor, op.schema, visibility, c)
    requires op.authorization == [c.op.id]
    ensures AuthorizeForVisibility(op, now, view, Some(visibility)) == Ok(())
  {
    AuthorizationIsExact(op, now, view, Some(visibility));
    assert [c][1..] == [];
    assert CostAll([c]) == Cost(c) + CostAll([]);
    assert Grants(view, now, op.space, op.actor, [c.op.id], Permitting(Append(op.schema, visibility)), [c]);
  }

  /** Exactly when an actor can append with a well-chosen single reference: it holds a live grant for it.
      For the controller that grant can only come from a member, never from the bootstrap itself. */
  lemma AppendableExactlyWhenLinked(view: View, now: int, op: Operation, visibility: Visibility)
    requires IsClientSchema(op.schema) && (DeclaredVisibility(op.body).Some? || op.body.Tombstone?)
    ensures (exists id :: AuthorizeForVisibility(op.(authorization := [id]), now, view, Some(visibility)) == Ok(())) <==>
            (exists c :: LinkedAs(view, now, op.space, op.actor, op.schema, visibility, c))
  {
    var permitted := Permitting(Append(op.schema, visibility));
    if id :| AuthorizeForVisibility(op.(authorization := [id]), now, view, Some(visibility)) == Ok(()) {
      AuthorizationIsExact(op.(authorization := [id]), now, view, Some(visibility));
      var cs: seq<Chain> :| Grants(view, now, op.space, op.actor, [id], permitted, cs);
      assert permitted(AuthorityOf(cs[0]));
      assert cs[1..] == [];
      assert CostAll(cs) == Cost(cs[0]) + CostAll([]);
      assert LinkedAs(view, now, op.space, op.actor, op.schema, visibility, cs[0]);
    }
    if c :| LinkedAs(view, now, op.space, op.actor, op.schema, visibility, c) {
      LinkedActorAppends(view, now, op.(authorization := [c.op.id]), visibility, c);
    }
  }

  lemma WriterScopePermits(g: Grant, schema: Schema, visibility: Visibility)
    requires LocalWriterScope(g) && IsClientSchema(schema)
    ensures PermitsAppend(g, schema, visibility) && IsMember(g)
  {
    assert g.actions[0] == AppendOperation && g.actions[3] == LinkWorkspace;
    assert g.schemas[0] == Event && g.schemas[1] == Profile && g.schemas[2] == Record && g.schemas[3] == Tag;
    assert g.visibilities[0] == Public && g.visibilities[1] == Private;
  }

  /** The local writer may append every client schema at either visibility, at every time, while unrevoked. */
  lemma WriterMayAlwaysAppend(r: Request, view: View, now: int, op: Operation, visibility: Visibility)
    requires GrownFrom(r, view)
    requires view.isRevoked(r.genesis.space, r.initialGrant.id) == Ok(false)
    requires op.space == r.genesis.space && op.actor == Writer(r) && op.authorization == [r.initialGrant.id]
    requires IsClientSchema(op.schema) && (DeclaredVisibility(op.body).Some? || op.body.Tombstone?)
    ensures AuthorizeForVisibility(op, now, view, Some(visibility)) == Ok(())
  {
    var c := WriterChain(r, view, now);
    WriterScopePermits(r.initialGrant.body.grant, op.schema, visibility);
    LinkedActorAppends(view, now, op, visibility, c);
  }

  /** Nobody but the controller can revoke, or issue anything other than a membership grant. */
  lemma OnlyTheControllerAdministers(r: Request, view: View, now: int, op: Operation, visibility: Option<Visibility>)
    requires GrownFrom(r, view)
    requires op.space == r.genesis.space && op.actor != Controller(r)
    requires AuthorizeForVisibility(op, now, view, visibility) == Ok(())
    ensures !op.body.RevokeBody?
    ensures op.body.GrantBody? ==> IsMember(op.body.grant)
  {
    AuthorizationIsExact(op, now, view, visibility);
    var required := RequiredFor(op, visibility).value;
    var cs: seq<Chain> :| Grants(view, now, op.space, op.actor, op.authorization, Permitting(required), cs);
    var c := cs[0];
    assert Permitting(required)(AuthorityOf(c)) && Justified(view, now, op.space, op.actor, c);
    if c.Link? { EveryGrantIsMembership(r, view, now, op.actor, c); }
  }

  /** The controller's own signature never appends: each reference must be a membership grant that another
      member signed for the controller. */
  lemma ControllerAppendsOnlyAsLinkedMember(r: Request, view: View, now: int, op: Operation, visibility: Visibility,
                                            i: nat)
    requires GrownFrom(r, view)
    requires op.space == r.genesis.space && op.actor == Controller(r)
    requires IsClientSchema(op.schema)
    requires AuthorizeForVisibility(op, now, view, Some(visibility)) == Ok(())
    requires i < |op.authorization|
    ensures IsStored(view, op.space, op.authorization[i])
    ensures
      var link := StoredAt(view, op.space, op.authorization[i]);
      && IsGrantOperation(link)
      && link.body.grant.subject == Controller(r) != link.actor
      && IsMember(link.body.grant)
      && PermitsAppend(link.body.grant, op.schema, visibility)
  {
    var c := ReferencedChain(op, now, view, Some(visibility), i);
    EveryGrantIsMembership(r, view, now, op.actor, c);
  }

  // ----- a member can link the controller, so "the controller never appends" fails in general -----

  function ExampleGenesis(): Operation {
    Operation(1, 7, 10, 100, SpaceGenesis, [], [], 0, 0, GenesisBody(10), true)
  }

  function WriterGrant(subject: ActorId): Grant {
    Grant(subject, [AppendOperation, ReadSpace, WriteContent, LinkWorkspace], [Event, Profile, Record, Tag],
          [Public, Private], ["record.media"], Some(LOCAL_WRITER_RESOURCE_LIMIT), None, None, 0, "writer")
  }

  function ExampleGrant(): Operation {
    Operation(2, 7, 10, 200, CapabilityGrant, [], [1], 0, 0, GrantBody(WriterGrant(20)), true)
  }

  /** Signed by the writer (20), naming the controller (10) as the new member. */
  function ExampleLink(): Operation {
    Operation(3, 7, 20, 300, CapabilityGrant, [], [2], 0, 0, GrantBody(WriterGrant(10)), true)
  }

  function ExampleRequest(): Request { Request("home", ExampleGenesis(), ExampleGrant(), 0) }

  function ExampleView(): View {
    View(s => Ok(if s == 7 then Some(1) else None),
         (s, id) => Ok(if s != 7 then None
                       else if id == 1 then Some(ExampleGenesis())
                       else if id == 2 then Some(ExampleGrant())
                       else if id == 3 then Some(ExampleLink()) else None),
         (s, id) => Ok(false))
  }

  lemma SubsetOfItself<T(!new)>(s: seq<T>, less: (T, T) -> bool)
    requires StrictTotalOrder(less) && StrictlySorted(s, less)
    ensures IsSubset(s, s, less)
  {
    forall i | 0 <= i < |s| ensures BinarySearch(s, s[i], less) { BinarySearchIsMembership(s, s[i], less); }
  }

  lemma SameScopeIsNarrower(parent: Grant, child: Grant)
    requires GrantSetsSorted(parent) && child == parent.(subject := child.subject)
    ensures ScopeIsNarrower(parent, child)
  {
    EnumOrders();
    StringOrder();
    SubsetOfItself(parent.actions, ActionLess);
    SubsetOfItself(parent.schemas, SchemaLess);
    SubsetOfItself(parent.visibilities, VisibilityLess);
    SubsetOfItself(parent.contentRoles, StringLess);
  }

  lemma WriterGrantIsValid(subject: ActorId)
    ensures ValidGrant(WriterGrant(subject)) && IsMember(WriterGrant(subject))
    ensures PermitsAppend(WriterGrant(subject), Record, Private)
  {
    var g := WriterGrant(subject);
    assert g.actions[0] == AppendOperation && g.actions[2] == WriteContent && g.actions[3] == LinkWorkspace;
    assert g.schemas[0] == Event && g.schemas[2] == Record && g.visibilities[1] == Private;
    assert Event in g.schemas && IsClientSchema(Event);
  }

  lemma GrantOperationIsVerified(op: Operation, subject: ActorId)
    requires op.schema.CapabilityGrant? && op.body == GrantBody(WriterGrant(subject)) && op.sealed
    requires op.entity != NIL_ENTITY && op.occurredAt == 0 && op.parents == [] && |op.authorization| == 1
    ensures Verified(op)
  {
    WriterGrantIsValid(subject);
  }

  lemma ExampleIsAccepted()
    ensures Accepted(ExampleRequest()) && Verified(ExampleLink())
  {
    GrantOperationIsVerified(ExampleGrant(), 20);
    GrantOperationIsVerified(ExampleLink(), 10);
    var r := ExampleRequest();
    assert Verified(r.genesis);
    assert r.displayName == ['h', 'o', 'm', 'e'];
    assert forall i | 0 <= i < |r.displayName| :: !IsControl(r.displayName[i]);
    assert LocalWriterScope(r.initialGrant.body.grant);
  }

  /** A member who signs a same-scope link for the controller lets the controller append. */
  lemma LinkLetsControllerAppend(r: Request, view: View, now: int, link: Operation, op: Operation)
    requires GrownFrom(r, view)
    requires view.isRevoked(r.genesis.space, r.initialGrant.id) == Ok(false)
    requires view.isRevoked(r.genesis.space, link.id) == Ok(false)
    requires Stored(view, r.genesis.space, link) && IsGrantOperation(link) && link.actor == Writer(r)
    requires link.body.grant == r.initialGrant.body.grant.(subject := Controller(r))
    requires link.authorization == [r.initialGrant.id]
    requires op.space == r.genesis.space && op.actor == Controller(r) && op.authorization == [link.id]
    requires op.schema.Record? && op.body.PutRecord?
    ensures AuthorizeOperation(op, now, view) == Ok(())
  {
    var chain := LinkChain(r, view, now, link);
    var visibility := DeclaredVisibility(op.body).value;
    WriterScopePermits(link.body.grant, Record, visibility);
    LinkedActorAppends(view, now, op, visibility, chain);
  }

  lemma LinkChain(r: Request, view: View, now: int, link: Operation) returns (chain: Chain)
    requires GrownFrom(r, view)
    requires view.isRevoked(r.genesis.space, r.initialGrant.id) == Ok(false)
    requires view.isRevoked(r.genesis.space, link.id) == Ok(false)
    requires Stored(view, r.genesis.space, link) && IsGrantOperation(link) && link.actor == Writer(r)
    requires link.body.grant == r.initialGrant.body.grant.(subject := Controller(r))
    requires link.authorization == [r.initialGrant.id]
    ensures chain.Link? && chain.op == link && Cost(chain) <= MAX_AUTHORIZATION_GRAPH_VISITS
    ensures Justified(view, now, r.genesis.space, Controller(r), chain)
  {
    var writer := WriterChain(r, view, now);
    chain := Link(link, [writer]);
    var parent, child := r.initialGrant.body.grant, link.body.grant;
    SameScopeIsNarrower(parent, child);
    WriterScopePermits(parent, Record, Public);
    assert LinksWorkspace(parent, child);
    assert Justified(view, now, r.genesis.space, Controller(r), chain);
    assert [writer][1..] == [] && CostAll([writer]) == Cost(writer) + CostAll([]);
  }

  /** Counterexample: in a space grown from an accepted bootstrap, a linked controller does append. */
  lemma LinkedControllerAppends()
    ensures GrownFrom(ExampleRequest(), ExampleView())
    ensures
      var op := Operation(9, 7, Controller(ExampleRequest()), 900, Record, [], [3], 0, 0,
                          PutRecord(PrivateDocument("", [])), true);
      AuthorizeOperation(op, 0, ExampleView()) == Ok(())
  {
    ExampleIsAccepted();
    var op := Operation(9, 7, 10, 900, Record, [], [3], 0, 0, PutRecord(PrivateDocument("", [])), true);
    LinkLetsControllerAppend(ExampleRequest(), ExampleView(), 0, ExampleLink(), op);
  }
}
