/** What authorization guarantees along reference paths of any length. */
module AuthorityTheorems {
  import opened Wrappers
  import opened Ordering
  import opened Operations
  import opened Authorization
  import opened AuthorityChains

  // ----- reference paths, stated on the stored operations only -----

  predicate IsStored(view: View, space: SpaceId, id: OperationId) {
    var r := view.operation(space, id);
    r.Ok? && r.value.Some?
  }

  function StoredAt(view: View, space: SpaceId, id: OperationId): Operation
    requires IsStored(view, space, id)
  {
    view.operation(space, id).value.value
  }

  /** Each operation on the path is referenced by the authorization of the one before it. */
  predicate ReferencePath(view: View, space: SpaceId, refs: seq<OperationId>, path: seq<OperationId>) {
    && path != []
    && path[0] in refs
    && forall i | 0 <= i < |path| - 1 ::
         IsStored(view, space, path[i]) && path[i + 1] in StoredAt(view, space, path[i]).authorization
  }

  predicate IsGrantOperation(op: Operation) {
    op.schema.CapabilityGrant? && op.body.GrantBody?
  }

  // ----- what narrowing means -----

  lemma SubsetMeaning<T(!new)>(child: seq<T>, parent: seq<T>, less: (T, T) -> bool, v: T)
    requires StrictTotalOrder(less) && StrictlySorted(parent, less)
    requires IsSubset(child, parent, less) && v in child
    ensures v in parent
  {
    var i :| 0 <= i < |child| && child[i] == v;
    BinarySearchIsMembership(parent, v, less);
  }

  /** Properties every issuer of a grant shares with it. */
  ghost predicate Inherited(p: Grant -> bool) {
    forall parent: Grant, child: Grant ::
      ValidGrant(parent) && PermitsDelegation(parent, child) && p(child) ==> p(parent)
  }

  function PermitsThisAppend(schema: Schema, visibility: Visibility): Grant -> bool {
    g => PermitsAppend(g, schema, visibility)
  }

  function CarriesAction(action: Action): Grant -> bool { (g: Grant) => action in g.actions }

  lemma NarrowerScope(parent: Grant, child: Grant)
    requires ValidGrant(parent) && PermitsDelegation(parent, child)
    ensures forall a :: a in child.actions ==> a in parent.actions
    ensures forall s :: s in child.schemas ==> s in parent.schemas
    ensures forall v :: v in child.visibilities ==> v in parent.visibilities
    ensures forall r :: r in child.contentRoles ==> r in parent.contentRoles
    ensures forall t :: WindowContains(child, t) ==> WindowContains(parent, t)
  {
    EnumOrders();
    StringOrder();
    forall a | a in child.actions ensures a in parent.actions {
      SubsetMeaning(child.actions, parent.actions, ActionLess, a);
    }
    forall s | s in child.schemas ensures s in parent.schemas {
      SubsetMeaning(child.schemas, parent.schemas, SchemaLess, s);
    }
    forall v | v in child.visibilities ensures v in parent.visibilities {
      SubsetMeaning(child.visibilities, parent.visibilities, VisibilityLess, v);
    }
    forall r | r in child.contentRoles ensures r in parent.contentRoles {
      SubsetMeaning(child.contentRoles, parent.contentRoles, StringLess, r);
    }
  }

  /** Following references inside a justification stays inside justifications, and keeps inherited properties. */
  lemma {:induction false} FollowPath(view: View, now: int, space: SpaceId, subject: ActorId, c: Chain,
                                      path: seq<OperationId>, p: Grant -> bool)
    returns (d: Chain, holder: ActorId)
    requires Justified(view, now, space, subject, c)
    requires ReferencePath(view, space, [c.op.id], path)
    requires Inherited(p) && (c.Link? ==> p(c.op.body.grant))
    ensures Justified(view, now, space, holder, d) && d.op.id == path[|path| - 1]
    ensures d.Link? ==> p(d.op.body.grant)
    ensures |path| <= Cost(c)
    decreases |path|
  {
    if |path| == 1 {
      d, holder := c, subject;
    } else {
      assert path[0 + 1] in StoredAt(view, space, path[0]).authorization;
      var i :| 0 <= i < |c.op.authorization| && c.op.authorization[i] == path[1];
      var tail := path[1..];
      forall k | 0 <= k < |tail| - 1
        ensures IsStored(view, space, tail[k]) && tail[k + 1] in StoredAt(view, space, tail[k]).authorization
      {
        assert path[k + 1 + 1] in StoredAt(view, space, path[k + 1]).authorization;
      }
      d, holder := FollowPath(view, now, space, c.op.actor, c.issuers[i], tail, p);
      IdsAllHas(c.issuers, i);
    }
  }

  /** The justification of whatever a reference path of a granted request ends at. */
  lemma PathEnd(view: View, now: int, space: SpaceId, subject: ActorId, refs: seq<OperationId>,
                permitted: Authority -> bool, path: seq<OperationId>, p: Grant -> bool)
    returns (d: Chain, holder: ActorId)
    requires Granted(view, now, space, subject, refs, permitted)
    requires ReferencePath(view, space, refs, path)
    requires Inherited(p)
    requires forall g :: permitted(Delegated(g)) ==> p(g)
    ensures Justified(view, now, space, holder, d) && d.op.id == path[|path| - 1]
    ensures d.Link? ==> p(d.op.body.grant)
    ensures |path| <= MAX_AUTHORIZATION_GRAPH_VISITS
  {
    var cs: seq<Chain> :| Grants(view, now, space, subject, refs, permitted, cs);
    var i :| 0 <= i < |refs| && refs[i] == path[0];
    assert permitted(AuthorityOf(cs[i]));
    d, holder := FollowPath(view, now, space, subject, cs[i], path, p);
    IdsAllHas(cs, i);
  }

  /** The end of the path is the anchored genesis, or a live unrevoked grant with property `p`. */
  predicate AnchorOrLive(view: View, now: int, space: SpaceId, id: OperationId, p: Grant -> bool) {
    && IsStored(view, space, id)
    && var op := StoredAt(view, space, id);
       && Verified(op) && op.id == id && op.space == space
       && if IsGrantOperation(op) then
            && view.isRevoked(space, id) == Ok(false)
            && WindowContains(op.body.grant, now)
            && op.authorization != []
            && p(op.body.grant)
          else op.schema.SpaceGenesis? && view.trustedGenesis(space) == Ok(Some(id))
  }

  /** No amplification: every grant a reference path reaches permits the same append; a path that cannot be
      extended has reached the anchored genesis, within the visit budget. */
  lemma AppendIsNeverAmplified(op: Operation, now: int, view: View, visibility: Visibility, path: seq<OperationId>)
    requires IsClientSchema(op.schema)
    requires AuthorizeForVisibility(op, now, view, Some(visibility)) == Ok(())
    requires ReferencePath(view, op.space, op.authorization, path)
    ensures |path| <= MAX_AUTHORIZATION_GRAPH_VISITS
    ensures AnchorOrLive(view, now, op.space, path[|path| - 1], PermitsThisAppend(op.schema, visibility))
  {
    AuthorizationIsExact(op, now, view, Some(visibility));
    var p := PermitsThisAppend(op.schema, visibility);
    forall parent: Grant, child: Grant | ValidGrant(parent) && PermitsDelegation(parent, child) && p(child)
      ensures p(parent)
    {
      NarrowerScope(parent, child);
    }
    var d, holder := PathEnd(view, now, op.space, op.actor, op.authorization,
                             Permitting(Append(op.schema, visibility)), path, p);
  }

  /** The same for a data-plane action: every reachable grant carries it. */
  lemma ActionIsNeverAmplified(space: SpaceId, subject: ActorId, refs: seq<OperationId>, action: Action,
                               now: int, view: View, path: seq<OperationId>)
    requires AuthorizeAction(space, subject, refs, action, now, view) == Ok(())
    requires ReferencePath(view, space, refs, path)
    ensures AnchorOrLive(view, now, space, path[|path| - 1], CarriesAction(action))
  {
    ActionAuthorizationIsExact(space, subject, refs, action, now, view);
    var p := CarriesAction(action);
    forall parent: Grant, child: Grant | ValidGrant(parent) && PermitsDelegation(parent, child) && p(child)
      ensures p(parent)
    {
      NarrowerScope(parent, child);
    }
    var d, holder := PathEnd(view, now, space, subject, refs, PermittingAction(action), path, p);
  }

  // ----- delegation depth -----

  /** Grants from a direct reference (first) up to the root-issued one (last). */
  ghost predicate DelegationChain(gs: seq<Grant>) {
    && gs != []
    && (forall i | 0 <= i < |gs| :: ValidGrant(gs[i]))
    && forall i | 0 <= i < |gs| - 1 :: PermitsDelegation(gs[i + 1], gs[i])
  }

  ghost predicate AttenuatesFrom(gs: seq<Grant>, m: nat) {
    forall i | m <= i < |gs| - 1 :: Attenuates(gs[i + 1], gs[i])
  }

  ghost predicate LinksBelow(gs: seq<Grant>, m: nat) {
    && (forall i | 0 <= i < m && i < |gs| - 1 :: !Attenuates(gs[i + 1], gs[i]))
    && (forall i | 0 <= i < m && i < |gs| :: IssueCapability !in gs[i].actions && RevokeCapability !in gs[i].actions)
  }

  /** Depth-decreasing delegations form the root side of the chain and are bounded by the root grant's depth;
      below the first link-only edge nobody can issue or revoke. */
  lemma {:induction false} AttenuationIsARootPrefix(gs: seq<Grant>) returns (m: nat)
    requires DelegationChain(gs)
    ensures m < |gs| && AttenuatesFrom(gs, m) && LinksBelow(gs, m)
    ensures |gs| - 1 - m + gs[m].delegationDepth <= gs[|gs| - 1].delegationDepth
    decreases |gs|
  {
    if |gs| == 1 {
      m := 0;
    } else {
      var upper := gs[1..];
      forall i | 0 <= i < |upper| - 1 ensures PermitsDelegation(upper[i + 1], upper[i]) {
        assert PermitsDelegation(gs[i + 1 + 1], gs[i + 1]);
      }
      var k := AttenuationIsARootPrefix(upper);
      assert PermitsDelegation(gs[0 + 1], gs[0]);
      NarrowerScope(gs[1], gs[0]);
      if k == 0 && Attenuates(gs[1], gs[0]) {
        m := 0;
        forall i | m <= i < |gs| - 1 ensures Attenuates(gs[i + 1], gs[i]) {
          if i > 0 { assert Attenuates(upper[i - 1 + 1], upper[i - 1]); }
        }
      } else {
        m := k + 1;
        forall i | m <= i < |gs| - 1 ensures Attenuates(gs[i + 1], gs[i]) {
          assert Attenuates(upper[i - 1 + 1], upper[i - 1]);
        }
        forall i | 0 <= i < m && i < |gs| - 1 ensures !Attenuates(gs[i + 1], gs[i]) {
          if i > 0 { assert !Attenuates(upper[i - 1 + 1], upper[i - 1]); }
          else if k > 0 { assert IssueCapability !in upper[0].actions; }
        }
        forall i | 0 <= i < m && i < |gs|
          ensures IssueCapability !in gs[i].actions && RevokeCapability !in gs[i].actions
        {
          if i > 0 { assert IssueCapability !in upper[i - 1].actions && RevokeCapability !in upper[i - 1].actions; }
          else if k > 0 { assert IssueCapability !in upper[0].actions && RevokeCapability !in upper[0].actions; }
        }
      }
    }
  }

  /** The grants stored along a path of grant operations. */
  ghost function GrantsAlong(view: View, space: SpaceId, path: seq<OperationId>): seq<Grant>
    requires forall i | 0 <= i < |path| ::
               IsStored(view, space, path[i]) && IsGrantOperation(StoredAt(view, space, path[i]))
  {
    seq(|path|, i requires 0 <= i < |path| && IsStored(view, space, path[i]) && IsGrantOperation(StoredAt(view, space, path[i])) =>
      StoredAt(view, space, path[i]).body.grant)
  }

  /** Every reference path of grants below an authorized request is a delegation chain. */
  lemma {:induction false} PathsDelegate(view: View, now: int, space: SpaceId, subject: ActorId, c: Chain,
                                         path: seq<OperationId>)
    requires Justified(view, now, space, subject, c)
    requires ReferencePath(view, space, [c.op.id], path)
    requires forall i | 0 <= i < |path| ::
               IsStored(view, space, path[i]) && IsGrantOperation(StoredAt(view, space, path[i]))
    ensures DelegationChain(GrantsAlong(view, space, path))
    decreases |path|
  {
    var gs := GrantsAlong(view, space, path);
    assert StoredAt(view, space, path[0]) == c.op;
    if |path| > 1 {
      assert path[0 + 1] in StoredAt(view, space, path[0]).authorization;
      var i :| 0 <= i < |c.op.authorization| && c.op.authorization[i] == path[1];
      var tail := path[1..];
      forall k | 0 <= k < |tail| - 1
        ensures IsStored(view, space, tail[k]) && tail[k + 1] in StoredAt(view, space, tail[k]).authorization
      {
        assert path[k + 1 + 1] in StoredAt(view, space, path[k + 1]).authorization;
      }
      PathsDelegate(view, now, space, c.op.actor, c.issuers[i], tail);
      var upper := GrantsAlong(view, space, tail);
      assert upper == gs[1..];
      assert StoredAt(view, space, path[1]) == c.issuers[i].op;
      assert Permits(AuthorityOf(c.issuers[i]), Issue(c.op.body.grant));
      forall k | 0 <= k < |gs| - 1 ensures PermitsDelegation(gs[k + 1], gs[k]) {
        if k > 0 { assert PermitsDelegation(upper[k - 1 + 1], upper[k - 1]); }
      }
      forall k | 0 <= k < |gs| ensures ValidGrant(gs[k]) {
        if k > 0 { assert ValidGrant(upper[k - 1]); }
      }
    }
  }

  /** On any reference path of grants below an authorized request, at most `delegationDepth` of the last (root-most)
      grant's edges are depth-decreasing, they are the root-most ones, and below them no grant issues or revokes. */
  lemma DelegationDepthBoundsChains(op: Operation, now: int, view: View, visibility: Option<Visibility>,
                                    path: seq<OperationId>) returns (m: nat)
    requires AuthorizeForVisibility(op, now, view, visibility) == Ok(())
    requires ReferencePath(view, op.space, op.authorization, path)
    requires forall i | 0 <= i < |path| ::
               IsStored(view, op.space, path[i]) && IsGrantOperation(StoredAt(view, op.space, path[i]))
    ensures
      var gs := GrantsAlong(view, op.space, path);
      m < |gs| && AttenuatesFrom(gs, m) && LinksBelow(gs, m) && |gs| - 1 - m <= gs[|gs| - 1].delegationDepth
  {
    var i :| 0 <= i < |op.authorization| && op.authorization[i] == path[0];
    var c := ReferencedChain(op, now, view, visibility, i);
    PathsDelegate(view, now, op.space, op.actor, c, path);
    m := AttenuationIsARootPrefix(GrantsAlong(view, op.space, path));
  }

  /** Every direct reference of an authorized operation has a justified chain that permits it. */
  lemma ReferencedChain(op: Operation, now: int, view: View, visibility: Option<Visibility>, i: nat) returns (c: Chain)
    requires AuthorizeForVisibility(op, now, view, visibility) == Ok(()) && i < |op.authorization|
    ensures Justified(view, now, op.space, op.actor, c) && c.op.id == op.authorization[i]
    ensures RequiredFor(op, visibility).Ok? && Permits(AuthorityOf(c), RequiredFor(op, visibility).value)
  {
    AuthorizationIsExact(op, now, view, visibility);
    var permitted := Permitting(RequiredFor(op, visibility).value);
    var cs: seq<Chain> :| Grants(view, now, op.space, op.actor, op.authorization, permitted, cs);
    c := cs[i];
    assert permitted(AuthorityOf(c));
  }

  // ----- admission time -----

  lemma {:induction false} Rejustify(view: View, t0: int, t: int, space: SpaceId, subject: ActorId, c: Chain)
    requires Justified(view, t0, space, subject, c)
    requires c.Link? ==> WindowContains(c.op.body.grant, t)
    ensures Justified(view, t, space, subject, c)
    decreases c
  {
    if c.Link? {
      forall i | 0 <= i < |c.issuers| ensures Justified(view, t, space, c.op.actor, c.issuers[i]) {
        assert Permits(AuthorityOf(c.issuers[i]), Issue(c.op.body.grant));
        if c.issuers[i].Link? { NarrowerScope(c.issuers[i].op.body.grant, c.op.body.grant); }
        Rejustify(view, t0, t, space, c.op.actor, c.issuers[i]);
      }
    }
  }

  /** The windows of the directly referenced grants. */
  predicate DirectWindowsContain(view: View, space: SpaceId, refs: seq<OperationId>, t: int) {
    forall i | 0 <= i < |refs| ::
      IsStored(view, space, refs[i]) && IsGrantOperation(StoredAt(view, space, refs[i])) ==>
        WindowContains(StoredAt(view, space, refs[i]).body.grant, t)
  }

  /** Once authorized at some time, only the direct references' windows decide any other time. */
  lemma DirectWindowsDecideAdmission(op: Operation, view: View, visibility: Option<Visibility>, t0: int, t: int)
    requires AuthorizeForVisibility(op, t0, view, visibility) == Ok(())
    ensures AuthorizeForVisibility(op, t, view, visibility) == Ok(()) <==>
            DirectWindowsContain(view, op.space, op.authorization, t)
  {
    AuthorizationIsExact(op, t0, view, visibility);
    AuthorizationIsExact(op, t, view, visibility);
    var permitted := Permitting(RequiredFor(op, visibility).value);
    var refs := op.authorization;
    var cs: seq<Chain> :| Grants(view, t0, op.space, op.actor, refs, permitted, cs);
    if DirectWindowsContain(view, op.space, refs, t) {
      forall i | 0 <= i < |cs| ensures cs[i].op.id == refs[i] && Justified(view, t, op.space, op.actor, cs[i]) {
        Rejustify(view, t0, t, op.space, op.actor, cs[i]);
      }
      assert Grants(view, t, op.space, op.actor, refs, permitted, cs);
    }
    if Granted(view, t, op.space, op.actor, refs, permitted) {
      var ds: seq<Chain> :| Grants(view, t, op.space, op.actor, refs, permitted, ds);
      forall i | 0 <= i < |refs| && IsStored(view, op.space, refs[i]) && IsGrantOperation(StoredAt(view, op.space, refs[i]))
        ensures WindowContains(StoredAt(view, op.space, refs[i]).body.grant, t)
      {
        assert ds[i].op.id == refs[i] && Justified(view, t, op.space, op.actor, ds[i]);
      }
    }
  }

  // ----- revocation and conjunction -----

  /** The same store with at least as many revocations. */
  ghost predicate RevokesMore(view: View, later: View) {
    && later.operation == view.operation
    && later.trustedGenesis == view.trustedGenesis
    && forall s, g :: later.isRevoked(s, g) == view.isRevoked(s, g) || later.isRevoked(s, g) == Ok(true)
  }

  lemma {:induction false} JustifiedBefore(view: View, later: View, now: int, space: SpaceId, subject: ActorId, c: Chain)
    requires RevokesMore(view, later) && Justified(later, now, space, subject, c)
    ensures Justified(view, now, space, subject, c)
    decreases c
  {
    if c.Link? {
      forall i | 0 <= i < |c.issuers| ensures Justified(view, now, space, c.op.actor, c.issuers[i]) {
        JustifiedBefore(view, later, now, space, c.op.actor, c.issuers[i]);
      }
    }
  }

  /** Adding revocations never turns a refusal into an admission. */
  lemma RevokingNeverAdmits(op: Operation, now: int, view: View, later: View, visibility: Option<Visibility>)
    requires RevokesMore(view, later)
    requires AuthorizeForVisibility(op, now, later, visibility) == Ok(())
    ensures AuthorizeForVisibility(op, now, view, visibility) == Ok(())
  {
    AuthorizationIsExact(op, now, later, visibility);
    AuthorizationIsExact(op, now, view, visibility);
    var permitted := Permitting(RequiredFor(op, visibility).value);
    var cs: seq<Chain> :| Grants(later, now, op.space, op.actor, op.authorization, permitted, cs);
    forall i | 0 <= i < |cs| ensures Justified(view, now, op.space, op.actor, cs[i]) {
      JustifiedBefore(view, later, now, op.space, op.actor, cs[i]);
    }
    assert Grants(view, now, op.space, op.actor, op.authorization, permitted, cs);
  }

  /** Revoking any grant a reference path reaches refuses the operation. */
  lemma RevokedAncestorRefuses(op: Operation, now: int, view: View, visibility: Option<Visibility>, path: seq<OperationId>)
    requires ReferencePath(view, op.space, op.authorization, path)
    requires var id := path[|path| - 1];
             && IsStored(view, op.space, id) && IsGrantOperation(StoredAt(view, op.space, id))
             && view.isRevoked(op.space, id) == Ok(true)
    ensures AuthorizeForVisibility(op, now, view, visibility) != Ok(())
  {
    if AuthorizeForVisibility(op, now, view, visibility) == Ok(()) {
      AuthorizationIsExact(op, now, view, visibility);
      var required := RequiredFor(op, visibility).value;
      var d, holder := PathEnd(view, now, op.space, op.actor, op.authorization, Permitting(required), path, g => true);
    }
  }

  function Without<T>(s: seq<T>, j: nat): seq<T>
    requires j < |s|
  {
    s[..j] + s[j + 1..]
  }

  lemma MatchFirst(refs: seq<OperationId>, fewer: seq<OperationId>) returns (j: nat)
    requires fewer != [] && multiset(fewer) <= multiset(refs)
    ensures j < |refs| && refs[j] == fewer[0] && multiset(fewer[1..]) <= multiset(Without(refs, j))
  {
    assert fewer[0] in multiset(fewer);
    j :| 0 <= j < |refs| && refs[j] == fewer[0];
    assert refs == refs[..j] + [refs[j]] + refs[j + 1..];
    assert fewer == [fewer[0]] + fewer[1..];
    assert multiset(refs) == multiset(Without(refs, j)) + multiset{refs[j]};
    assert multiset(fewer) == multiset(fewer[1..]) + multiset{fewer[0]};
    var m, n := multiset(fewer[1..]), multiset(Without(refs, j));
    assert m + multiset{fewer[0]} <= n + multiset{fewer[0]};
    forall x ensures m[x] <= n[x] {
      assert (m + multiset{fewer[0]})[x] <= (n + multiset{fewer[0]})[x];
    }
  }

  lemma {:induction false} CostWithout(cs: seq<Chain>, j: nat)
    requires j < |cs|
    ensures CostAll(cs) == Cost(cs[j]) + CostAll(Without(cs, j))
  {
    if j == 0 {
      assert Without(cs, 0) == cs[1..];
    } else {
      CostWithout(cs[1..], j - 1);
      assert Without(cs, j)[1..] == Without(cs[1..], j - 1);
    }
  }

  ghost predicate PermittedAll(permitted: Authority -> bool, cs: seq<Chain>) {
    forall i | 0 <= i < |cs| :: permitted(AuthorityOf(cs[i]))
  }

  lemma DropReference(view: View, now: int, space: SpaceId, subject: ActorId, refs: seq<OperationId>,
                      cs: seq<Chain>, permitted: Authority -> bool, j: nat)
    requires JustifiedAll(view, now, space, subject, refs, cs) && PermittedAll(permitted, cs)
    requires j < |cs|
    ensures JustifiedAll(view, now, space, subject, Without(refs, j), Without(cs, j))
    ensures PermittedAll(permitted, Without(cs, j))
  {
    var fewerRefs, fewerChains := Without(refs, j), Without(cs, j);
    forall i | 0 <= i < |fewerChains|
      ensures fewerChains[i].op.id == fewerRefs[i] && Justified(view, now, space, subject, fewerChains[i])
      ensures permitted(AuthorityOf(fewerChains[i]))
    {
      var k := if i < j then i else i + 1;
      assert fewerChains[i] == cs[k] && fewerRefs[i] == refs[k];
    }
  }

  lemma AddReference(view: View, now: int, space: SpaceId, subject: ActorId, refs: seq<OperationId>,
                     cs: seq<Chain>, permitted: Authority -> bool, c: Chain)
    requires JustifiedAll(view, now, space, subject, refs, cs) && PermittedAll(permitted, cs)
    requires Justified(view, now, space, subject, c) && permitted(AuthorityOf(c))
    ensures JustifiedAll(view, now, space, subject, [c.op.id] + refs, [c] + cs)
    ensures PermittedAll(permitted, [c] + cs)
    ensures CostAll([c] + cs) == Cost(c) + CostAll(cs)
  {
    assert ([c] + cs)[1..] == cs;
  }

  lemma {:induction false} SelectChains(view: View, now: int, space: SpaceId, subject: ActorId, refs: seq<OperationId>,
                                        cs: seq<Chain>, permitted: Authority -> bool, fewer: seq<OperationId>)
    returns (ds: seq<Chain>)
    requires JustifiedAll(view, now, space, subject, refs, cs) && PermittedAll(permitted, cs)
    requires multiset(fewer) <= multiset(refs)
    ensures JustifiedAll(view, now, space, subject, fewer, ds) && PermittedAll(permitted, ds)
    ensures CostAll(ds) <= CostAll(cs)
    decreases |fewer|
  {
    if fewer == [] {
      ds := [];
    } else {
      var j := MatchFirst(refs, fewer);
      CostWithout(cs, j);
      DropReference(view, now, space, subject, refs, cs, permitted, j);
      var rest := SelectChains(view, now, space, subject, Without(refs, j), Without(cs, j), permitted, fewer[1..]);
      AddReference(view, now, space, subject, fewer[1..], rest, permitted, cs[j]);
      ds := [cs[j]] + rest;
      assert fewer == [cs[j].op.id] + fewer[1..];
    }
  }

  /** References are conjunctive: dropping or permuting them never turns an admission into a refusal. */
  lemma FewerReferencesStillAdmit(op: Operation, now: int, view: View, visibility: Option<Visibility>, fewer: seq<OperationId>)
    requires fewer != [] && multiset(fewer) <= multiset(op.authorization)
    requires AuthorizeForVisibility(op, now, view, visibility) == Ok(())
    ensures AuthorizeForVisibility(op.(authorization := fewer), now, view, visibility) == Ok(())
  {
    var narrowed := op.(authorization := fewer);
    AuthorizationIsExact(op, now, view, visibility);
    AuthorizationIsExact(narrowed, now, view, visibility);
    var required := RequiredFor(op, visibility);
    assert RequiredFor(narrowed, visibility) == required;
    var permitted := Permitting(required.value);
    var cs: seq<Chain> :| Grants(view, now, op.space, op.actor, op.authorization, permitted, cs);
    var ds := SelectChains(view, now, op.space, op.actor, op.authorization, cs, permitted, fewer);
    assert Grants(view, now, op.space, op.actor, fewer, permitted, ds);
  }
}
