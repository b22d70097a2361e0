/** Capability-chain evaluation: a budgeted, cycle-checked, conjunctive walk over stored grants. */
module Authorization {
  import opened Wrappers
  import opened Ordering
  import opened Operations

  const MAX_AUTHORIZATION_GRAPH_VISITS: nat := 4_096

  datatype AuthorizationError =
    | Required
    | Missing(id: OperationId)
    | CrossSpaceReference(id: OperationId)
    | NotCapability(id: OperationId)
    | UntrustedGenesis(id: OperationId)
    | Revoked(id: OperationId)
    | SubjectMismatch(id: OperationId, subject: ActorId, actor: ActorId)
    | OutsideAdmissionWindow(id: OperationId, now: int)
    | Denied
    | Cycle(id: OperationId)
    | GraphTooLarge
    | InvalidStoredOperation(id: OperationId)
    | ViewUnavailable

  /** Transaction-scoped reads; `Err` is a storage failure. */
  datatype View = View(
    trustedGenesis: SpaceId -> Result<Option<OperationId>, ()>,
    operation: (SpaceId, OperationId) -> Result<Option<Operation>, ()>,
    isRevoked: (SpaceId, OperationId) -> Result<bool, ()>)

  datatype RequiredAuthority = Append(schema: Schema, visibility: Visibility) | Issue(child: Grant) | Revoke

  datatype Authority = RootController | Delegated(grant: Grant)

  type Resolution = Result<Authority, AuthorizationError>
  type Resolutions = Result<seq<Authority>, AuthorizationError>

  // ----- pure permission checks -----

  predicate WindowContains(g: Grant, now: int) {
    && (g.notBefore.Some? ==> g.notBefore.value <= now)
    && (g.expiresAt.Some? ==> now < g.expiresAt.value)
  }

  predicate PermitsAppend(g: Grant, schema: Schema, visibility: Visibility) {
    AppendOperation in g.actions && schema in g.schemas && visibility in g.visibilities
  }

  predicate IsSubset<T>(child: seq<T>, parent: seq<T>, less: (T, T) -> bool) {
    forall i | 0 <= i < |child| :: BinarySearch(parent, child[i], less)
  }

  predicate MaximumIsNarrower(child: Option<nat>, parent: Option<nat>) {
    parent.None? || (child.Some? && child.value <= parent.value)
  }

  predicate LowerBoundIsNarrower(child: Option<int>, parent: Option<int>) {
    parent.None? || (child.Some? && parent.value <= child.value)
  }

  predicate UpperBoundIsNarrower(child: Option<int>, parent: Option<int>) {
    parent.None? || (child.Some? && child.value <= parent.value)
  }

  predicate ScopeIsNarrower(parent: Grant, child: Grant) {
    && IsSubset(child.actions, parent.actions, ActionLess)
    && IsSubset(child.schemas, parent.schemas, SchemaLess)
    && IsSubset(child.visibilities, parent.visibilities, VisibilityLess)
    && IsSubset(child.contentRoles, parent.contentRoles, StringLess)
    && MaximumIsNarrower(child.maxResourceByteLength, parent.maxResourceByteLength)
    && LowerBoundIsNarrower(child.notBefore, parent.notBefore)
    && UpperBoundIsNarrower(child.expiresAt, parent.expiresAt)
  }

  /** General issuance: strictly decreasing delegation depth. */
  predicate Attenuates(parent: Grant, child: Grant) {
    && IssueCapability in parent.actions
    && 0 < parent.delegationDepth
    && child.delegationDepth < parent.delegationDepth
    && ScopeIsNarrower(parent, child)
  }

  /** Renewable membership: never carries issue or revoke authority. */
  predicate LinksWorkspace(parent: Grant, child: Grant) {
    && LinkWorkspace in parent.actions
    && LinkWorkspace in child.actions
    && IssueCapability !in child.actions
    && RevokeCapability !in child.actions
    && child.delegationDepth == 0
    && ScopeIsNarrower(parent, child)
  }

  predicate PermitsDelegation(parent: Grant, child: Grant) {
    Attenuates(parent, child) || LinksWorkspace(parent, child)
  }

  predicate Permits(a: Authority, required: RequiredAuthority) {
    match (a, required)
    case (RootController, Append(_, _)) => false
    case (RootController, _) => true
    case (Delegated(g), Append(schema, visibility)) => PermitsAppend(g, schema, visibility)
    case (Delegated(g), Issue(child)) => PermitsDelegation(g, child)
    case (Delegated(g), Revoke) => RevokeCapability in g.actions
  }

  predicate PermitsAction(a: Authority, action: Action) {
    a.Delegated? && action in a.grant.actions
  }

  function Permitting(required: RequiredAuthority): Authority -> bool { a => Permits(a, required) }

  function PermittingAction(action: Action): Authority -> bool { a => PermitsAction(a, action) }

  function RequiredFor(op: Operation, visibility: Option<Visibility>): Result<RequiredAuthority, AuthorizationError> {
    match op.body
    case PutRecord(_) | PutTag(_) | PutEvent(_) | PutProfile(_) | Tombstone =>
      if IsClientSchema(op.schema) && visibility.Some? then Ok(Append(op.schema, visibility.value))
      else Err(Denied)
    case GrantBody(grant) => if op.schema.CapabilityGrant? then Ok(Issue(grant)) else Err(Denied)
    case RevokeBody(_) => if op.schema.CapabilityRevoke? then Ok(Revoke) else Err(Denied)
    case GenesisBody(_) => Err(Denied)
  }

  // ----- the evaluator as a function: result and visits consumed so far -----

  /** Checks on a stored operation before its kind is looked at. */
  function Load(view: View, space: SpaceId, id: OperationId): Result<Operation, AuthorizationError> {
    match view.operation(space, id)
    case Err(_) => Err(ViewUnavailable)
    case Ok(None) => Err(Missing(id))
    case Ok(Some(op)) =>
      if !Verified(op) then Err(InvalidStoredOperation(id))
      else if op.id != id then Err(InvalidStoredOperation(id))
      else if op.space != space then Err(CrossSpaceReference(id))
      else Ok(op)
  }

  function CheckGenesis(view: View, subject: ActorId, op: Operation): Resolution
    requires op.body.GenesisBody?
  {
    match view.trustedGenesis(op.space)
    case Err(_) => Err(ViewUnavailable)
    case Ok(anchor) =>
      if anchor != Some(op.id) then Err(UntrustedGenesis(op.id))
      else if op.body.controller != subject || op.actor != subject then
        Err(SubjectMismatch(op.id, op.body.controller, subject))
      else Ok(RootController)
  }

  /** A grant's own conditions, before its issuers are resolved. */
  function CheckGrant(view: View, now: int, subject: ActorId, op: Operation): Result<(), AuthorizationError>
    requires op.body.GrantBody?
  {
    var g := op.body.grant;
    if g.subject != subject then Err(SubjectMismatch(op.id, g.subject, subject))
    else
      match view.isRevoked(op.space, op.id)
      case Err(_) => Err(ViewUnavailable)
      case Ok(revoked) =>
        if revoked then Err(Revoked(op.id))
        else if !WindowContains(g, now) then Err(OutsideAdmissionWindow(op.id, now))
        else Ok(())
  }

  function EvalInner(view: View, now: int, visits: nat, stack: set<OperationId>,
                     space: SpaceId, subject: ActorId, id: OperationId): (r: (Resolution, nat))
    requires visits <= MAX_AUTHORIZATION_GRAPH_VISITS
    ensures visits <= r.1 <= MAX_AUTHORIZATION_GRAPH_VISITS + 1
    decreases MAX_AUTHORIZATION_GRAPH_VISITS + 1 - visits
  {
    match Load(view, space, id)
    case Err(e) => (Err(e), visits)
    case Ok(op) =>
      if op.schema.SpaceGenesis? && op.body.GenesisBody? then (CheckGenesis(view, subject, op), visits)
      else if op.schema.CapabilityGrant? && op.body.GrantBody? then
        match CheckGrant(view, now, subject, op)
        case Err(e) => (Err(e), visits)
        case Ok(_) =>
          var (issuers, after) := EvalSet(view, now, visits, stack, space, op.actor, op.authorization);
          if issuers.Err? then (Err(issuers.error), after)
          else if forall i | 0 <= i < |issuers.value| :: Permits(issuers.value[i], Issue(op.body.grant)) then
            (Ok(Delegated(op.body.grant)), after)
          else (Err(Denied), after)
      else (Err(NotCapability(id)), visits)
  }

  function Eval(view: View, now: int, visits: nat, stack: set<OperationId>,
                space: SpaceId, subject: ActorId, id: OperationId): (r: (Resolution, nat))
    requires visits <= MAX_AUTHORIZATION_GRAPH_VISITS
    ensures visits < r.1 <= MAX_AUTHORIZATION_GRAPH_VISITS + 1
    ensures r.0.Ok? ==> r.1 <= MAX_AUTHORIZATION_GRAPH_VISITS
    decreases MAX_AUTHORIZATION_GRAPH_VISITS + 1 - visits, 0, 0
  {
    if visits + 1 > MAX_AUTHORIZATION_GRAPH_VISITS then (Err(GraphTooLarge), visits + 1)
    else if id in stack then (Err(Cycle(id)), visits + 1)
    else EvalInner(view, now, visits + 1, stack + {id}, space, subject, id)
  }

  function EvalAll(view: View, now: int, visits: nat, stack: set<OperationId>,
                   space: SpaceId, subject: ActorId, refs: seq<OperationId>): (r: (Resolutions, nat))
    requires visits <= MAX_AUTHORIZATION_GRAPH_VISITS
    ensures visits <= r.1 <= MAX_AUTHORIZATION_GRAPH_VISITS + 1
    ensures r.0.Ok? ==> r.1 <= MAX_AUTHORIZATION_GRAPH_VISITS && |r.0.value| == |refs|
    decreases MAX_AUTHORIZATION_GRAPH_VISITS + 1 - visits, |refs|, 0
  {
    if refs == [] then (Ok([]), visits)
    else
      var (first, after) := Eval(view, now, visits, stack, space, subject, refs[0]);
      if first.Err? then (Err(first.error), after)
      else
        var (rest, final) := EvalAll(view, now, after, stack, space, subject, refs[1..]);
        if rest.Err? then (Err(rest.error), final) else (Ok([first.value] + rest.value), final)
  }

  function EvalSet(view: View, now: int, visits: nat, stack: set<OperationId>,
                   space: SpaceId, subject: ActorId, refs: seq<OperationId>): (r: (Resolutions, nat))
    requires visits <= MAX_AUTHORIZATION_GRAPH_VISITS
    ensures visits <= r.1 <= MAX_AUTHORIZATION_GRAPH_VISITS + 1
    ensures r.0.Ok? ==> r.1 <= MAX_AUTHORIZATION_GRAPH_VISITS && |r.0.value| == |refs| > 0
    decreases MAX_AUTHORIZATION_GRAPH_VISITS + 1 - visits, |refs|, 1
  {
    if refs == [] then (Err(Required), visits)
    else EvalAll(view, now, visits, stack, space, subject, refs)
  }

  function Decide(resolved: Resolutions, permitted: Authority -> bool): Result<(), AuthorizationError> {
    match resolved
    case Err(e) => Err(e)
    case Ok(authorities) =>
      if forall i | 0 <= i < |authorities| :: permitted(authorities[i]) then Ok(()) else Err(Denied)
  }

  function AuthorizeForVisibility(op: Operation, now: int, view: View, visibility: Option<Visibility>)
    : Result<(), AuthorizationError>
  {
    if op.authorization == [] then Err(Required)
    else
      match RequiredFor(op, visibility)
      case Err(e) => Err(e)
      case Ok(required) =>
        Decide(EvalSet(view, now, 0, {}, op.space, op.actor, op.authorization).0, Permitting(required))
  }

  function AuthorizeOperation(op: Operation, now: int, view: View): Result<(), AuthorizationError> {
    AuthorizeForVisibility(op, now, view, DeclaredVisibility(op.body))
  }

  function AuthorizeAction(space: SpaceId, subject: ActorId, refs: seq<OperationId>, action: Action,
                           now: int, view: View): Result<(), AuthorizationError>
  {
    Decide(EvalSet(view, now, 0, {}, space, subject, refs).0, PermittingAction(action))
  }

  /** What a loop that has already resolved `done` returns, given the outcome of the remaining references. */
  function Prepend(done: seq<Authority>, rest: Resolutions): Resolutions {
    if rest.Ok? then Ok(done + rest.value) else rest
  }

  lemma PrependStep(done: seq<Authority>, next: Authority, rest: Resolutions)
    ensures Prepend(done, Prepend([next], rest)) == Prepend(done + [next], rest)
    ensures Prepend([], rest) == rest
  {
    if rest.Ok? {
      assert done + ([next] + rest.value) == done + [next] + rest.value;
      assert [] + rest.value == rest.value;
    }
  }

  // ----- the evaluator as the source runs it: one mutable visit count and cycle stack -----

  class EvaluationContext {
    const view: View
    const now: int
    var visits: nat
    var stack: set<OperationId>

    constructor (view: View, now: int)
      ensures this.view == view && this.now == now
      ensures visits == 0 && stack == {}
    {
      this.view, this.now := view, now;
      visits, stack := 0, {};
    }

    method ResolveSet(space: SpaceId, subject: ActorId, refs: seq<OperationId>) returns (r: Resolutions)
      requires visits <= MAX_AUTHORIZATION_GRAPH_VISITS
      modifies this
      ensures stack == old(stack)
      ensures (r, visits) == EvalSet(view, now, old(visits), old(stack), space, subject, refs)
      decreases MAX_AUTHORIZATION_GRAPH_VISITS + 1 - visits, 1
    {
      if refs == [] { return Err(Required); }
      var resolved: seq<Authority> := [];
      assert refs[0..] == refs;
      assert forall rest: Resolutions :: Prepend(resolved, rest) == rest by {
        forall rest: Resolutions ensures Prepend([], rest) == rest { PrependStep([], RootController, rest); }
      }
      for i := 0 to |refs|
        invariant stack == old(stack) && |resolved| == i
        invariant old(visits) <= visits <= MAX_AUTHORIZATION_GRAPH_VISITS
        invariant
          var rest := EvalAll(view, now, visits, stack, space, subject, refs[i..]);
          EvalAll(view, now, old(visits), stack, space, subject, refs) ==
          (Prepend(resolved, rest.0), rest.1)
      {
        assert refs[i..][1..] == refs[i + 1..];
        var first := Resolve(space, subject, refs[i]);
        if first.Err? { return Err(first.error); }
        PrependStep(resolved, first.value, EvalAll(view, now, visits, stack, space, subject, refs[i + 1..]).0);
        resolved := resolved + [first.value];
      }
      assert resolved + [] == resolved;
      return Ok(resolved);
    }

    method Resolve(space: SpaceId, subject: ActorId, id: OperationId) returns (r: Resolution)
      requires visits <= MAX_AUTHORIZATION_GRAPH_VISITS
      modifies this
      ensures stack == old(stack)
      ensures (r, visits) == Eval(view, now, old(visits), old(stack), space, subject, id)
      decreases MAX_AUTHORIZATION_GRAPH_VISITS + 1 - visits, 0
    {
      visits := visits + 1;
      if visits > MAX_AUTHORIZATION_GRAPH_VISITS { return Err(GraphTooLarge); }
      if id in stack { return Err(Cycle(id)); }
      stack := stack + {id};
      r := ResolveInner(space, subject, id);
      stack := stack - {id};
    }

    method ResolveInner(space: SpaceId, subject: ActorId, id: OperationId) returns (r: Resolution)
      requires visits <= MAX_AUTHORIZATION_GRAPH_VISITS
      modifies this
      ensures stack == old(stack)
      ensures (r, visits) == EvalInner(view, now, old(visits), old(stack), space, subject, id)
      decreases MAX_AUTHORIZATION_GRAPH_VISITS + 1 - visits, 2
    {
      var loaded := Load(view, space, id);
      if loaded.Err? { return Err(loaded.error); }
      var op := loaded.value;
      if op.schema.SpaceGenesis? && op.body.GenesisBody? {
        return CheckGenesis(view, subject, op);
      }
      if !(op.schema.CapabilityGrant? && op.body.GrantBody?) { return Err(NotCapability(id)); }
      var checked := CheckGrant(view, now, subject, op);
      if checked.Err? { return Err(checked.error); }
      var issuers := ResolveSet(space, op.actor, op.authorization);
      if issuers.Err? { return Err(issuers.error); }
      if forall i | 0 <= i < |issuers.value| :: Permits(issuers.value[i], Issue(op.body.grant)) {
        return Ok(Delegated(op.body.grant));
      }
      return Err(Denied);
    }
  }

  method AuthorizeOperationForVisibility(op: Operation, now: int, view: View, visibility: Option<Visibility>)
    returns (r: Result<(), AuthorizationError>)
    ensures r == AuthorizeForVisibility(op, now, view, visibility)
  {
    if op.authorization == [] { return Err(Required); }
    var required := RequiredFor(op, visibility);
    if required.Err? { return Err(required.error); }
    var context := new EvaluationContext(view, now);
    var authorities := context.ResolveSet(op.space, op.actor, op.authorization);
    return Decide(authorities, Permitting(required.value));
  }

  method AuthorizeCapabilityAction(space: SpaceId, subject: ActorId, refs: seq<OperationId>, action: Action,
                                   now: int, view: View)
    returns (r: Result<(), AuthorizationError>)
    ensures r == AuthorizeAction(space, subject, refs, action, now, view)
  {
    var context := new EvaluationContext(view, now);
    var authorities := context.ResolveSet(space, subject, refs);
    return Decide(authorities, PermittingAction(action));
  }
}
