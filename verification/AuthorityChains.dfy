/** The inductive meaning of authority, and the proof that the evaluator decides it exactly. */
module AuthorityChains {
  import opened Wrappers
  import opened Operations
  import opened Authorization

  /** A finite justification: the anchored genesis, or a grant with one justification per issuer reference. */
  datatype Chain = Root(op: Operation) | Link(op: Operation, issuers: seq<Chain>)

  function AuthorityOf(c: Chain): Authority {
    if c.Link? && c.op.body.GrantBody? then Delegated(c.op.body.grant) else RootController
  }

  /** Operations visited when the reference tree is unfolded without sharing. */
  function Cost(c: Chain): nat
    decreases c
  {
    match c
    case Root(_) => 1
    case Link(_, issuers) => 1 + CostAll(issuers)
  }

  function CostAll(cs: seq<Chain>): nat
    decreases cs
  {
    if cs == [] then 0 else Cost(cs[0]) + CostAll(cs[1..])
  }

  ghost function Ids(c: Chain): set<OperationId>
    decreases c
  {
    match c
    case Root(op) => {op.id}
    case Link(op, issuers) => {op.id} + IdsAll(issuers)
  }

  ghost function IdsAll(cs: seq<Chain>): set<OperationId>
    decreases cs
  {
    if cs == [] then {} else Ids(cs[0]) + IdsAll(cs[1..])
  }

  predicate Stored(view: View, space: SpaceId, op: Operation) {
    view.operation(space, op.id) == Ok(Some(op)) && Verified(op) && op.space == space
  }

  /** The inductive judgement: `c` justifies `subject` holding AuthorityOf(c) at time `now`. */
  ghost predicate Justified(view: View, now: int, space: SpaceId, subject: ActorId, c: Chain)
    decreases c
  {
    && Stored(view, space, c.op)
    && match c
       case Root(op) =>
         && op.schema.SpaceGenesis? && op.body.GenesisBody?
         && view.trustedGenesis(space) == Ok(Some(op.id))
         && op.body.controller == subject == op.actor
       case Link(op, issuers) =>
         && op.schema.CapabilityGrant? && op.body.GrantBody?
         && op.body.grant.subject == subject
         && view.isRevoked(space, op.id) == Ok(false)
         && WindowContains(op.body.grant, now)
         && |issuers| == |op.authorization| > 0
         && (forall i | 0 <= i < |issuers| ::
               && issuers[i].op.id == op.authorization[i]
               && Justified(view, now, space, op.actor, issuers[i])
               && Permits(AuthorityOf(issuers[i]), Issue(op.body.grant)))
  }

  /** One justification per reference, in order. */
  ghost predicate JustifiedAll(view: View, now: int, space: SpaceId, subject: ActorId,
                               refs: seq<OperationId>, cs: seq<Chain>)
  {
    && |cs| == |refs|
    && forall i | 0 <= i < |cs| :: cs[i].op.id == refs[i] && Justified(view, now, space, subject, cs[i])
  }

  // ----- soundness: every Ok result has a justification, and its cost is the visits spent -----

  lemma EvalSound(view: View, now: int, visits: nat, stack: set<OperationId>,
                  space: SpaceId, subject: ActorId, id: OperationId) returns (c: Chain)
    requires visits <= MAX_AUTHORIZATION_GRAPH_VISITS
    requires Eval(view, now, visits, stack, space, subject, id).0.Ok?
    ensures c.op.id == id && Justified(view, now, space, subject, c)
    ensures Eval(view, now, visits, stack, space, subject, id) == (Ok(AuthorityOf(c)), visits + Cost(c))
    decreases MAX_AUTHORIZATION_GRAPH_VISITS + 1 - visits, 0
  {
    assert Eval(view, now, visits, stack, space, subject, id) ==
           EvalInner(view, now, visits + 1, stack + {id}, space, subject, id);
    var op := Load(view, space, id).value;
    if op.schema.SpaceGenesis? && op.body.GenesisBody? {
      c := Root(op);
    } else {
      var issuers := EvalAllSound(view, now, visits + 1, stack + {id}, space, op.actor, op.authorization);
      c := Link(op, issuers);
      var resolved := EvalSet(view, now, visits + 1, stack + {id}, space, op.actor, op.authorization).0.value;
      forall i | 0 <= i < |issuers| ensures Permits(AuthorityOf(issuers[i]), Issue(op.body.grant)) {
        assert resolved[i] == AuthorityOf(issuers[i]);
      }
    }
  }

  lemma EvalAllSound(view: View, now: int, visits: nat, stack: set<OperationId>,
                     space: SpaceId, subject: ActorId, refs: seq<OperationId>) returns (cs: seq<Chain>)
    requires visits <= MAX_AUTHORIZATION_GRAPH_VISITS
    requires EvalAll(view, now, visits, stack, space, subject, refs).0.Ok?
    ensures JustifiedAll(view, now, space, subject, refs, cs)
    ensures
      var r := EvalAll(view, now, visits, stack, space, subject, refs);
      r.1 == visits + CostAll(cs) && forall i | 0 <= i < |cs| :: r.0.value[i] == AuthorityOf(cs[i])
    decreases MAX_AUTHORIZATION_GRAPH_VISITS + 1 - visits, 1 + |refs|
  {
    if refs == [] {
      cs := [];
    } else {
      var c := EvalSound(view, now, visits, stack, space, subject, refs[0]);
      var rest := EvalAllSound(view, now, visits + Cost(c), stack, space, subject, refs[1..]);
      cs := [c] + rest;
      assert cs[1..] == rest;
    }
  }

  // ----- the stored references determine the whole tree, so no justification revisits an ancestor -----

  /** The references alone, without subjects, revocation, or time. */
  ghost predicate Shaped(view: View, space: SpaceId, c: Chain)
    decreases c
  {
    && view.operation(space, c.op.id) == Ok(Some(c.op))
    && (c.Root? ==> c.op.body.GenesisBody?)
    && (c.Link? ==>
          && c.op.body.GrantBody?
          && |c.issuers| == |c.op.authorization|
          && forall i | 0 <= i < |c.issuers| ::
               c.issuers[i].op.id == c.op.authorization[i] && Shaped(view, space, c.issuers[i]))
  }

  lemma {:induction false} JustifiedIsShaped(view: View, now: int, space: SpaceId, subject: ActorId, c: Chain)
    requires Justified(view, now, space, subject, c)
    ensures Shaped(view, space, c)
    decreases c
  {
    if c.Link? {
      forall i | 0 <= i < |c.issuers| ensures Shaped(view, space, c.issuers[i]) {
        JustifiedIsShaped(view, now, space, c.op.actor, c.issuers[i]);
      }
    }
  }

  lemma {:induction false} ShapeIsUnique(view: View, space: SpaceId, c: Chain, d: Chain)
    requires Shaped(view, space, c) && Shaped(view, space, d) && c.op.id == d.op.id
    ensures c == d
    decreases c
  {
    if c.Link? {
      forall i | 0 <= i < |c.issuers| ensures c.issuers[i] == d.issuers[i] {
        ShapeIsUnique(view, space, c.issuers[i], d.issuers[i]);
      }
    }
  }

  lemma {:induction false} IdsAllHas(cs: seq<Chain>, i: nat)
    requires i < |cs|
    ensures Ids(cs[i]) <= IdsAll(cs) && Cost(cs[i]) <= CostAll(cs)
  {
    if i > 0 { IdsAllHas(cs[1..], i - 1); }
  }

  lemma {:induction false} IdsAllFrom(cs: seq<Chain>, id: OperationId) returns (i: nat)
    requires id in IdsAll(cs)
    ensures i < |cs| && id in Ids(cs[i])
  {
    if id in Ids(cs[0]) {
      i := 0;
    } else {
      i := IdsAllFrom(cs[1..], id);
      i := i + 1;
    }
  }

  lemma {:induction false} ShapeContains(view: View, space: SpaceId, c: Chain, id: OperationId) returns (d: Chain)
    requires Shaped(view, space, c) && id in Ids(c)
    ensures Shaped(view, space, d) && d.op.id == id && Cost(d) <= Cost(c)
    decreases c
  {
    if id == c.op.id {
      d := c;
    } else {
      var i := IdsAllFrom(c.issuers, id);
      d := ShapeContains(view, space, c.issuers[i], id);
      IdsAllHas(c.issuers, i);
    }
  }

  lemma NeverItsOwnAncestor(view: View, space: SpaceId, c: Chain)
    requires c.Link? && Shaped(view, space, c)
    ensures c.op.id !in IdsAll(c.issuers)
  {
    if c.op.id in IdsAll(c.issuers) {
      var i := IdsAllFrom(c.issuers, c.op.id);
      var d := ShapeContains(view, space, c.issuers[i], c.op.id);
      ShapeIsUnique(view, space, c, d);
      IdsAllHas(c.issuers, i);
    }
  }

  // ----- completeness: a justification within the budget is always found -----

  lemma {:induction false} EvalComplete(view: View, now: int, visits: nat, stack: set<OperationId>,
                                        space: SpaceId, subject: ActorId, c: Chain)
    requires Justified(view, now, space, subject, c) && Ids(c) !! stack
    requires visits + Cost(c) <= MAX_AUTHORIZATION_GRAPH_VISITS
    ensures Eval(view, now, visits, stack, space, subject, c.op.id) == (Ok(AuthorityOf(c)), visits + Cost(c))
    decreases c, 0
  {
    var op := c.op;
    assert Eval(view, now, visits, stack, space, subject, op.id) ==
           EvalInner(view, now, visits + 1, stack + {op.id}, space, subject, op.id);
    if c.Link? {
      JustifiedIsShaped(view, now, space, subject, c);
      NeverItsOwnAncestor(view, space, c);
      EvalAllComplete(view, now, visits + 1, stack + {op.id}, space, op.actor, op.authorization, c.issuers);
    }
  }

  lemma {:induction false} EvalAllComplete(view: View, now: int, visits: nat, stack: set<OperationId>, space: SpaceId,
                                           subject: ActorId, refs: seq<OperationId>, cs: seq<Chain>)
    requires JustifiedAll(view, now, space, subject, refs, cs) && IdsAll(cs) !! stack
    requires visits + CostAll(cs) <= MAX_AUTHORIZATION_GRAPH_VISITS
    ensures
      var r := EvalAll(view, now, visits, stack, space, subject, refs);
      && r.0.Ok? && r.1 == visits + CostAll(cs)
      && forall i | 0 <= i < |cs| :: r.0.value[i] == AuthorityOf(cs[i])
    decreases cs
  {
    if refs != [] {
      EvalComplete(view, now, visits, stack, space, subject, cs[0]);
      EvalAllComplete(view, now, visits + Cost(cs[0]), stack, space, subject, refs[1..], cs[1..]);
    }
  }

  // ----- the decision, exactly -----

  /** Justifications for every reference, within the visit budget, each permitting the request. */
  ghost predicate Grants(view: View, now: int, space: SpaceId, subject: ActorId, refs: seq<OperationId>,
                         permitted: Authority -> bool, cs: seq<Chain>)
  {
    && refs != []
    && JustifiedAll(view, now, space, subject, refs, cs)
    && CostAll(cs) <= MAX_AUTHORIZATION_GRAPH_VISITS
    && forall i | 0 <= i < |cs| :: permitted(AuthorityOf(cs[i]))
  }

  ghost predicate Granted(view: View, now: int, space: SpaceId, subject: ActorId, refs: seq<OperationId>,
                          permitted: Authority -> bool)
  {
    exists cs :: Grants(view, now, space, subject, refs, permitted, cs)
  }

  lemma DecisionIsExact(view: View, now: int, space: SpaceId, subject: ActorId, refs: seq<OperationId>,
                        permitted: Authority -> bool)
    ensures Decide(EvalSet(view, now, 0, {}, space, subject, refs).0, permitted) == Ok(()) <==>
            Granted(view, now, space, subject, refs, permitted)
  {
    var resolved := EvalSet(view, now, 0, {}, space, subject, refs).0;
    if resolved.Ok? {
      var cs := EvalAllSound(view, now, 0, {}, space, subject, refs);
      if Decide(resolved, permitted) == Ok(()) {
        forall i | 0 <= i < |cs| ensures permitted(AuthorityOf(cs[i])) {
          assert permitted(resolved.value[i]);
        }
        assert Grants(view, now, space, subject, refs, permitted, cs);
      }
    }
    if Granted(view, now, space, subject, refs, permitted) {
      var cs: seq<Chain> :| Grants(view, now, space, subject, refs, permitted, cs);
      EvalAllComplete(view, now, 0, {}, space, subject, refs, cs);
      forall i | 0 <= i < |refs| ensures permitted(resolved.value[i]) {
        assert permitted(AuthorityOf(cs[i]));
      }
    }
  }

  /** An operation is admitted exactly when justified chains within the budget permit what it asks for. */
  lemma AuthorizationIsExact(op: Operation, now: int, view: View, visibility: Option<Visibility>)
    ensures AuthorizeForVisibility(op, now, view, visibility) == Ok(()) <==>
            var required := RequiredFor(op, visibility);
            && required.Ok?
            && Granted(view, now, op.space, op.actor, op.authorization, Permitting(required.value))
  {
    var required := RequiredFor(op, visibility);
    if op.authorization != [] && required.Ok? {
      DecisionIsExact(view, now, op.space, op.actor, op.authorization, Permitting(required.value));
    }
  }

  lemma ActionAuthorizationIsExact(space: SpaceId, subject: ActorId, refs: seq<OperationId>, action: Action,
                                   now: int, view: View)
    ensures AuthorizeAction(space, subject, refs, action, now, view) == Ok(()) <==>
            Granted(view, now, space, subject, refs, PermittingAction(action))
  {
    DecisionIsExact(view, now, space, subject, refs, PermittingAction(action));
  }
}
