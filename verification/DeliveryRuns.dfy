/** Delivery rows over whole runs: lease safety, coverage of announced operations, and isolation of peers. */
module DeliveryRuns {
  import opened Wrappers
  import opened Operations
  import opened OperationGraph
  import opened GraphInvariants
  import opened EntityHistories
  import opened Outbox
  import opened ClientDatabase

  // ----- the life of one row, as a small machine of its own -----

  function RowIn(o: Outbox, k: DeliveryKey): Option<Delivery> { if k in o.deliveries then Some(o.deliveries[k]) else None }

  function Row(db: Database, k: DeliveryKey): Option<Delivery> { RowIn(db.outbox, k) }

  /** What a step may do to one row. */
  datatype RowEvent =
    | Quiet
    | Reset(now: int)
    | Lease(now: int, expires: int, lease: LeaseId)
    | Finished(lease: LeaseId, outcome: Outcome, at: int, error: Option<string>)
    | Released(lease: LeaseId)
    | SourceAcknowledged
    | Removed

  function EventOf(db: Database, step: Step, k: DeliveryKey): RowEvent {
    match step
    case CommitStep(op, _, source) => if op.id == k.1 && source == FromPeer(k.0) then SourceAcknowledged else Quiet
    case DeleteStep(space) => if k.1 in SpaceIds(db.graph.log, space) then Removed else Quiet
    case RequeueStep(peer, space, now) =>
      if peer == k.0 && k.1 in SpaceIds(db.graph.log, space) then Reset(now) else Quiet
    case LeaseStep(peer, now, leaseMs, _, lease) => if peer == k.0 then Lease(now, now + leaseMs, lease) else Quiet
    case FinishStep(peer, id, lease, outcome, at, error) =>
      if (peer, id) == k then Finished(lease, outcome, at, error) else Quiet
    case ReleaseStep(peer, lease) => if peer == k.0 then Released(lease) else Quiet
    case _ => Quiet
  }

  ghost predicate FreshRow(row: Option<Delivery>) { row.None? || row.value == Queued(row.value.nextAttemptAt) }

  ghost predicate RowMoves(before: Option<Delivery>, after: Option<Delivery>, e: RowEvent) {
    match e
    case Quiet => if before.Some? then after == before else FreshRow(after)
    case Reset(now) =>
      if before.None? then FreshRow(after)
      else after == Some(if before.value.state.Acknowledged? then before.value else Queued(now))
    case Lease(now, expires, lease) =>
      || after == before
      || (before.Some? && IsDue(before.value, now) && after == Some(LeaseRow(before.value, lease, expires)))
    case Finished(lease, outcome, at, error) =>
      before.Some? && Holds(before.value, lease) && after == Some(FinishRow(before.value, outcome, at, error))
    case Released(lease) =>
      if before.Some? && Holds(before.value, lease) then
        after == Some(before.value.(state := Pending, leaseId := None, leaseExpiresAt := None))
      else after == before
    case SourceAcknowledged => after.Some? && after.value.state.Acknowledged?
    case Removed => after.None?
  }

  lemma CommitMovesRow(db: Database, step: Step, k: DeliveryKey)
    requires step.CommitStep? && Apply(db, step).Ok?
    ensures RowMoves(Row(db, k), Row(Next(db, step), k), EventOf(db, step, k))
  {
    var op, at, source := step.op, step.at, step.source;
    assert ApplySource(db.outbox, op, at, source) == Ok(Next(db, step).outbox);
  }

  lemma ConfigurationMovesRow(db: Database, step: Step, k: DeliveryKey)
    requires (step.PeerStep? || step.EnableStep?) && Apply(db, step).Ok?
    ensures RowMoves(Row(db, k), Row(Next(db, step), k), Quiet)
  {
  }

  lemma SpaceMovesRow(db: Database, step: Step, k: DeliveryKey)
    requires (step.SpaceStep? || step.RequeueStep?) && Apply(db, step).Ok?
    ensures RowMoves(Row(db, k), Row(Next(db, step), k), EventOf(db, step, k))
  {
  }

  lemma LeaseMovesRow(db: Database, step: Step, k: DeliveryKey)
    requires step.LeaseStep? && Apply(db, step).Ok?
    ensures RowMoves(Row(db, k), Row(Next(db, step), k), EventOf(db, step, k))
  {
    var due := Due(db.outbox, db.graph.log, step.peer, step.now);
    var batch := Take(due, step.limit);
    if k in db.outbox.deliveries && k.0 == step.peer && exists i :: 0 <= i < |batch| && batch[i].id == k.1 {
      var i :| 0 <= i < |batch| && batch[i].id == k.1;
      DueRows(db.outbox, db.graph.log, step.peer, step.now, i);
    }
  }

  /** Every transaction moves every row only along the row machine. */
  lemma StepMovesRow(db: Database, step: Step, k: DeliveryKey)
    ensures if Apply(db, step).Ok? then RowMoves(Row(db, k), Row(Next(db, step), k), EventOf(db, step, k))
            else Row(Next(db, step), k) == Row(db, k)
  {
    if Apply(db, step).Ok? {
      match step
      case CommitStep(_, _, _) => CommitMovesRow(db, step, k);
      case PeerStep(_, _) => ConfigurationMovesRow(db, step, k);
      case EnableStep(_, _) => ConfigurationMovesRow(db, step, k);
      case SpaceStep(_, _, _) => SpaceMovesRow(db, step, k);
      case RequeueStep(_, _, _) => SpaceMovesRow(db, step, k);
      case LeaseStep(_, _, _, _, _) => LeaseMovesRow(db, step, k);
      case _ =>
    }
  }

  // ----- acknowledged is absorbing -----

  ghost predicate IsAcknowledged(db: Database, k: DeliveryKey) { Row(db, k).Some? && Row(db, k).value.state.Acknowledged? }

  /** The run accepts a deletion of the operation's workspace. */
  ghost predicate Deletes(db: Database, steps: seq<Step>, id: OperationId)
    decreases |steps|
  {
    steps != [] &&
    ((steps[0].DeleteStep? && Apply(db, steps[0]).Ok? && id in SpaceIds(db.graph.log, steps[0].space))
     || Deletes(Next(db, steps[0]), steps[1..], id))
  }

  lemma {:induction false} AcknowledgedIsAbsorbing(db: Database, steps: seq<Step>, k: DeliveryKey)
    requires IsAcknowledged(db, k) && !Deletes(db, steps, k.1)
    ensures IsAcknowledged(Run(db, steps), k)
    decreases |steps|
  {
    if steps != [] {
      StepMovesRow(db, steps[0], k);
      AcknowledgedIsAbsorbing(Next(db, steps[0]), steps[1..], k);
    }
  }

  // ----- superseded holders -----

  ghost predicate Held(db: Database, k: DeliveryKey, lease: LeaseId) { Row(db, k).Some? && Holds(Row(db, k).value, lease) }

  ghost predicate Leases(step: Step, lease: LeaseId) { step.LeaseStep? && step.lease == lease }

  lemma {:induction false} LostLeaseStaysLost(db: Database, steps: seq<Step>, k: DeliveryKey, lease: LeaseId)
    requires !Held(db, k, lease) && forall s | s in steps :: !Leases(s, lease)
    ensures !Held(Run(db, steps), k, lease)
    decreases |steps|
  {
    if steps != [] {
      assert steps[0] in steps;
      StepMovesRow(db, steps[0], k);
      forall s | s in steps[1..] ensures !Leases(s, lease) { assert s in steps; }
      LostLeaseStaysLost(Next(db, steps[0]), steps[1..], k, lease);
    }
  }

  /** Each lease id is generated once. */
  ghost predicate DistinctLeases(steps: seq<Step>) {
    forall i, j | 0 <= i < j < |steps| && steps[i].LeaseStep? && steps[j].LeaseStep? :: steps[i].lease != steps[j].lease
  }

  /** With fresh lease ids, a holder that has lost a row can never change it again: finishing is refused and leaves the
      database as it was, and releasing leaves the row as it was. */
  lemma SupersededHolderIsPowerless(db: Database, steps: seq<Step>, i: nat, j: nat, k: DeliveryKey)
    requires DistinctLeases(steps) && i < j <= |steps| && steps[i].LeaseStep?
    requires !Held(Run(db, steps[..j]), k, steps[i].lease)
    ensures
      var end, lease := Run(db, steps), steps[i].lease;
      && !Held(end, k, lease)
      && (forall outcome, at, error ::
            Apply(end, FinishStep(k.0, k.1, lease, outcome, at, error)).Err?)
      && Row(Next(end, ReleaseStep(k.0, lease)), k) == Row(end, k)
  {
    var lease := steps[i].lease;
    assert steps == steps[..j] + steps[j..];
    RunSplits(db, steps[..j], steps[j..]);
    forall s | s in steps[j..] ensures !Leases(s, lease) {
      var n :| 0 <= n < |steps[j..]| && steps[j..][n] == s;
      assert steps[j + n] == s;
    }
    LostLeaseStaysLost(Run(db, steps[..j]), steps[j..], k, lease);
    UnheldIsUntouchable(Run(db, steps), k, lease);
  }

  lemma UnheldIsUntouchable(db: Database, k: DeliveryKey, lease: LeaseId)
    requires !Held(db, k, lease)
    ensures forall outcome, at, error :: Apply(db, FinishStep(k.0, k.1, lease, outcome, at, error)).Err?
    ensures Row(Next(db, ReleaseStep(k.0, lease)), k) == Row(db, k)
  {
    StepMovesRow(db, ReleaseStep(k.0, lease), k);
  }

  // ----- a live lease is exclusive -----

  /** The row is leased under `lease` until `expires`. */
  ghost predicate LeasedUntil(db: Database, k: DeliveryKey, lease: LeaseId, expires: int) {
    Held(db, k, lease) && Row(db, k).value.leaseExpiresAt == Some(expires)
  }

  /** An expiry observed by a new lease, or an explicit end of this lease. */
  ghost predicate EndsLease(db: Database, step: Step, k: DeliveryKey, lease: LeaseId, expires: int) {
    && Apply(db, step).Ok?
    && match EventOf(db, step, k)
       case Quiet => false
       case Lease(now, _, _) => expires <= now
       case Finished(holder, _, _, _) => holder == lease
       case Released(holder) => holder == lease
       case Reset(_) => true
       case SourceAcknowledged => true
       case Removed => true
  }

  /** The step may change a row that reads `d`: it finds it due, its holder ends the lease, or it is reopened,
      acknowledged by its source, or removed. */
  ghost predicate Touches(db: Database, step: Step, k: DeliveryKey, d: Delivery) {
    && Apply(db, step).Ok?
    && match EventOf(db, step, k)
       case Quiet => false
       case Lease(now, _, _) => IsDue(d, now)
       case Finished(holder, _, _, _) => Holds(d, holder)
       case Released(holder) => Holds(d, holder)
       case Reset(_) => !d.state.Acknowledged?
       case SourceAcknowledged => true
       case Removed => true
  }

  lemma UntouchedStep(db: Database, step: Step, k: DeliveryKey, d: Delivery)
    requires Row(db, k) == Some(d) && !Touches(db, step, k, d)
    ensures Row(Next(db, step), k) == Some(d)
  {
    StepMovesRow(db, step, k);
  }

  /** A row that changed over a run was touched, and it was as before until that step. */
  lemma {:induction false} RowChangesOnlyWhenTouched(db: Database, steps: seq<Step>, k: DeliveryKey, d: Delivery)
    returns (i: nat)
    requires Row(db, k) == Some(d) && Row(Run(db, steps), k) != Some(d)
    ensures i < |steps|
    ensures Row(Run(db, steps[..i]), k) == Some(d)
    ensures Touches(Run(db, steps[..i]), steps[i], k, d)
    decreases |steps|
  {
    assert steps != [];
    if Touches(db, steps[0], k, d) {
      i := 0;
    } else {
      UntouchedStep(db, steps[0], k, d);
      var rest := RowChangesOnlyWhenTouched(Next(db, steps[0]), steps[1..], k, d);
      i := rest + 1;
      assert steps[..i][0] == steps[0] && steps[..i][1..] == steps[1..][..rest];
    }
  }

  /** If a leased row is different at the end of a run, some step observed its expiry or explicitly ended the lease,
      and the row was untouched until that step. */
  lemma LeaseIsExclusive(db: Database, steps: seq<Step>, k: DeliveryKey, lease: LeaseId, expires: int) returns (i: nat)
    requires LeasedUntil(db, k, lease, expires)
    requires Row(Run(db, steps), k) != Row(db, k)
    ensures i < |steps|
    ensures Row(Run(db, steps[..i]), k) == Row(db, k)
    ensures EndsLease(Run(db, steps[..i]), steps[i], k, lease, expires)
  {
    i := RowChangesOnlyWhenTouched(db, steps, k, Row(db, k).value);
  }

  /** A rejected row stays as it is until the peer's space is reopened, its source acknowledges it, or it is deleted. */
  lemma RejectedIsParked(db: Database, steps: seq<Step>, k: DeliveryKey) returns (i: nat)
    requires Row(db, k).Some? && Row(db, k).value.state.Rejected?
    requires Row(Run(db, steps), k) != Row(db, k)
    ensures i < |steps| && Row(Run(db, steps[..i]), k) == Row(db, k) && Apply(Run(db, steps[..i]), steps[i]).Ok?
    ensures
      var e := EventOf(Run(db, steps[..i]), steps[i], k);
      e.Reset? || e.SourceAcknowledged? || e.Removed?
  {
    i := RowChangesOnlyWhenTouched(db, steps, k, Row(db, k).value);
  }

  /** Lease fields exist exactly while leased, and the acknowledgement time exactly once acknowledged. */
  lemma RowFieldsMatchState(steps: seq<Step>, k: DeliveryKey)
    requires k in Run(EMPTY_DATABASE, steps).outbox.deliveries
    ensures
      var db := Run(EMPTY_DATABASE, steps);
      && RowOk(db.outbox.deliveries[k]) && k.0 in db.outbox.peers && k.1 in Ops(db.graph.log)
  {
    RunKeepsInv(EMPTY_DATABASE, steps);
  }

  // ----- coverage -----

  /** Stored operations that some commit announced as local or as received from a peer. */
  function NextAnnounced(db: Database, step: Step, announced: set<OperationId>): set<OperationId> {
    if Apply(db, step).Err? then announced
    else
      match step
      case CommitStep(op, _, source) => if source.Remote? then announced else announced + {op.id}
      case DeleteStep(space) => announced - SpaceIds(db.graph.log, space)
      case _ => announced
  }

  function AnnouncedIn(db: Database, steps: seq<Step>, announced: set<OperationId>): set<OperationId>
    decreases |steps|
  {
    if steps == [] then announced else AnnouncedIn(Next(db, steps[0]), steps[1..], NextAnnounced(db, steps[0], announced))
  }

  predicate Owed(o: Outbox, ops: OpMap, peer: PeerId, id: OperationId) {
    Pushes(o, peer) && id in ops && IsClientSchema(ops[id].schema) && (peer, ops[id].space) in o.peerSpaces
  }

  ghost predicate Covered(o: Outbox, ops: OpMap, announced: set<OperationId>) {
    forall peer: PeerId, id | id in announced && Owed(o, ops, peer, id) :: (peer, id) in o.deliveries
  }

  lemma RowsAreKept(db: Database, step: Step, k: DeliveryKey)
    requires k in db.outbox.deliveries && !step.DeleteStep?
    ensures k in Next(db, step).outbox.deliveries
  {
    StepMovesRow(db, step, k);
  }

  lemma UpsertOwes(o: Outbox, log: seq<Entry>, id: PeerId, config: Peer, peer: PeerId, op: OperationId)
    requires UpsertPeer(o, log, id, config).Ok? && Owed(UpsertPeer(o, log, id, config).value, Ops(log), peer, op)
    ensures Owed(o, Ops(log), peer, op) || (peer, op) in UpsertPeer(o, log, id, config).value.deliveries
  {
    var row := if id in o.peers then config.(addedAt := o.peers[id].addedAt) else config;
    var stored := o.(peers := o.peers[id := row]);
    if peer == id {
      assert op in ClientIds(stored, log, id);
    }
  }

  lemma EnableOwes(o: Outbox, log: seq<Entry>, id: PeerId, enabled: bool, peer: PeerId, op: OperationId)
    requires SetPeerEnabled(o, log, id, enabled).Ok?
    requires Owed(SetPeerEnabled(o, log, id, enabled).value, Ops(log), peer, op)
    requires exists e :: e in log && e.op.id == op && e.op == Ops(log)[op]
    ensures Owed(o, Ops(log), peer, op) || (peer, op) in SetPeerEnabled(o, log, id, enabled).value.deliveries
  {
    if peer == id {
      var e :| e in log && e.op.id == op && e.op == Ops(log)[op];
      var stored := o.(peers := o.peers[id := o.peers[id].(enabled := enabled)]);
      assert InScope(stored, id, e.op.space);
    }
  }

  lemma SpaceOwes(o: Outbox, log: seq<Entry>, id: PeerId, space: SpaceId, config: PeerSpace, peer: PeerId, op: OperationId)
    requires ConfigurePeerSpace(o, log, id, space, config).Ok?
    requires Owed(ConfigurePeerSpace(o, log, id, space, config).value, Ops(log), peer, op)
    ensures Owed(o, Ops(log), peer, op) || (peer, op) in ConfigurePeerSpace(o, log, id, space, config).value.deliveries
  {
    if peer == id && Ops(log)[op].space == space {
      assert op in SpaceIds(log, space) && op in ClientSpaceIds(log, space);
    }
  }

  /** A peer that comes to be owed an operation by a configuration change gets its row in the same transaction. */
  lemma ConfigurationCovers(db: Database, step: Step, peer: PeerId, id: OperationId)
    requires DatabaseInv(db) && Apply(db, step).Ok?
    requires step.PeerStep? || step.EnableStep? || step.SpaceStep?
    requires Owed(Next(db, step).outbox, Ops(db.graph.log), peer, id)
    ensures Owed(db.outbox, Ops(db.graph.log), peer, id) || (peer, id) in Next(db, step).outbox.deliveries
  {
    match step
    case PeerStep(p, config) => UpsertOwes(db.outbox, db.graph.log, p, config, peer, id);
    case EnableStep(p, enabled) =>
      var i := IndexOf(db.graph.log, id);
      assert db.graph.log[i] in db.graph.log;
      EnableOwes(db.outbox, db.graph.log, p, enabled, peer, id);
    case SpaceStep(p, space, config) => SpaceOwes(db.outbox, db.graph.log, p, space, config, peer, id);
  }

  lemma CommitCovers(db: Database, step: Step, peer: PeerId)
    requires step.CommitStep? && !step.source.Remote? && Apply(db, step).Ok?
    requires Pushes(db.outbox, peer) && (peer, step.op.space) in db.outbox.peerSpaces
    ensures (peer, step.op.id) in Next(db, step).outbox.deliveries
  {
    assert ApplySource(db.outbox, step.op, step.at, step.source) == Ok(Next(db, step).outbox);
    if step.source != FromPeer(peer) {
      assert peer in RecipientsOf(db.outbox, step.op.space, step.source);
    }
  }

  lemma CommitKeepsPeers(db: Database, step: Step)
    requires !step.PeerStep? && !step.EnableStep? && !step.SpaceStep? && !step.DeleteStep?
    ensures Next(db, step).outbox == db.outbox.(deliveries := Next(db, step).outbox.deliveries)
  {
  }

  lemma CommitOwes(db: Database, step: Step, announced: set<OperationId>, peer: PeerId, id: OperationId)
    requires DatabaseInv(db) && step.CommitStep? && Apply(db, step).Ok?
    requires announced <= Ops(db.graph.log).Keys && Covered(db.outbox, Ops(db.graph.log), announced)
    requires id in NextAnnounced(db, step, announced)
    requires Owed(Next(db, step).outbox, Ops(Next(db, step).graph.log), peer, id)
    ensures (peer, id) in Next(db, step).outbox.deliveries
  {
    CommitStores(db, step.op, step.at, step.source);
    CommitKeepsPeers(db, step);
    if id == step.op.id && !step.source.Remote? {
      CommitCovers(db, step, peer);
    } else {
      OwedBefore(db.outbox, Next(db, step).outbox, Ops(db.graph.log), step.op, peer, id);
      RowsAreKept(db, step, (peer, id));
    }
  }

  lemma OwedBefore(o: Outbox, next: Outbox, ops: OpMap, op: Operation, peer: PeerId, id: OperationId)
    requires next == o.(deliveries := next.deliveries) && (op.id in ops ==> ops[op.id] == op) && id in ops
    requires Owed(next, ops[op.id := op], peer, id)
    ensures Owed(o, ops, peer, id)
  {
  }

  lemma NextHasOperation(db: Database, step: Step)
    requires DatabaseInv(db) && step.CommitStep? && Apply(db, step).Ok?
    ensures step.op.id in Ops(Next(db, step).graph.log) && Ops(Next(db, step).graph.log)[step.op.id] == step.op
  {
    CommitStores(db, step.op, step.at, step.source);
  }

  lemma DeleteKeepsCovered(db: Database, space: SpaceId, announced: set<OperationId>)
    requires DatabaseInv(db) && DeleteWorkspace(db, space).Ok?
    requires Covered(db.outbox, Ops(db.graph.log), announced)
    ensures Covered(DeleteWorkspace(db, space).value.outbox, Remaining(Ops(db.graph.log), space),
                    announced - SpaceIds(db.graph.log, space))
  {
    var ops, next := Ops(db.graph.log), DeleteWorkspace(db, space).value.outbox;
    var left := Remaining(ops, space);
    forall peer: PeerId, id | id in announced - SpaceIds(db.graph.log, space) && Owed(next, left, peer, id)
      ensures (peer, id) in next.deliveries
    {
      assert Owed(db.outbox, ops, peer, id);
    }
  }

  lemma CommitKeepsCovered(db: Database, step: Step, announced: set<OperationId>)
    requires DatabaseInv(db) && step.CommitStep? && Apply(db, step).Ok?
    requires announced <= Ops(db.graph.log).Keys && Covered(db.outbox, Ops(db.graph.log), announced)
    ensures NextAnnounced(db, step, announced) <= Ops(Next(db, step).graph.log).Keys
    ensures Covered(Next(db, step).outbox, Ops(Next(db, step).graph.log), NextAnnounced(db, step, announced))
  {
    var next := Next(db, step);
    NextHasOperation(db, step);
    forall id | id in announced ensures id in Ops(next.graph.log) { OperationIsKept(db, step, id); }
    forall peer: PeerId, id | id in NextAnnounced(db, step, announced) && Owed(next.outbox, Ops(next.graph.log), peer, id)
      ensures (peer, id) in next.outbox.deliveries
    {
      CommitOwes(db, step, announced, peer, id);
    }
  }

  lemma OperationIsKept(db: Database, step: Step, id: OperationId)
    requires DatabaseInv(db) && id in Ops(db.graph.log)
    requires !(step.DeleteStep? && Apply(db, step).Ok? && step.space == Ops(db.graph.log)[id].space)
    ensures id in Ops(Next(db, step).graph.log) && Ops(Next(db, step).graph.log)[id] == Ops(db.graph.log)[id]
  {
    MoveKeepsInv(db, step);
    GraphMoves(db, step);
  }

  /** The step keeps every announced operation covered. */
  ghost predicate StaysCovered(db: Database, step: Step, announced: set<OperationId>) {
    && NextAnnounced(db, step, announced) <= Ops(Next(db, step).graph.log).Keys
    && Covered(Next(db, step).outbox, Ops(Next(db, step).graph.log), NextAnnounced(db, step, announced))
  }

  lemma RefusedStaysCovered(db: Database, step: Step, announced: set<OperationId>)
    requires Apply(db, step).Err? && announced <= Ops(db.graph.log).Keys && Covered(db.outbox, Ops(db.graph.log), announced)
    ensures StaysCovered(db, step, announced)
  {
  }

  lemma DeleteStaysCovered(db: Database, space: SpaceId, announced: set<OperationId>)
    requires DatabaseInv(db) && announced <= Ops(db.graph.log).Keys && DeleteWorkspace(db, space).Ok?
    requires Covered(db.outbox, Ops(db.graph.log), announced)
    ensures StaysCovered(db, DeleteStep(space), announced)
  {
    DeleteStepCovers(db, space, announced);
  }

  lemma OtherStaysCovered(db: Database, step: Step, announced: set<OperationId>)
    requires DatabaseInv(db) && Apply(db, step).Ok? && !step.DeleteStep? && !step.CommitStep?
    requires announced <= Ops(db.graph.log).Keys && Covered(db.outbox, Ops(db.graph.log), announced)
    ensures StaysCovered(db, step, announced)
  {
    OperationsAreSame(db, step);
    AnnouncedIsSame(db, step, announced);
    OtherStepsKeepCovered(db, step, announced);
  }

  lemma AnnouncedIsSame(db: Database, step: Step, announced: set<OperationId>)
    requires !step.DeleteStep? && !step.CommitStep?
    ensures NextAnnounced(db, step, announced) == announced
  {
  }

  lemma NextKeepsCovered(db: Database, step: Step, announced: set<OperationId>)
    requires DatabaseInv(db) && announced <= Ops(db.graph.log).Keys
    requires Covered(db.outbox, Ops(db.graph.log), announced)
    ensures StaysCovered(db, step, announced)
  {
    if Apply(db, step).Err? {
      RefusedStaysCovered(db, step, announced);
    } else if step.CommitStep? {
      CommitKeepsCovered(db, step, announced);
    } else if step.DeleteStep? {
      DeleteStaysCovered(db, step.space, announced);
    } else {
      OtherStaysCovered(db, step, announced);
    }
  }

  lemma OperationsAreSame(db: Database, step: Step)
    requires !step.CommitStep? && !step.DeleteStep?
    ensures Next(db, step).graph.log == db.graph.log
  {
    GraphMoves(db, step);
  }

  lemma DeleteStepCovers(db: Database, space: SpaceId, announced: set<OperationId>)
    requires DatabaseInv(db) && announced <= Ops(db.graph.log).Keys && DeleteWorkspace(db, space).Ok?
    requires Covered(db.outbox, Ops(db.graph.log), announced)
    ensures
      var next := DeleteWorkspace(db, space).value;
      && announced - SpaceIds(db.graph.log, space) <= Ops(next.graph.log).Keys
      && Covered(next.outbox, Ops(next.graph.log), announced - SpaceIds(db.graph.log, space))
  {
    MoveKeepsInv(db, DeleteStep(space));
    DeleteKeepsCovered(db, space, announced);
  }

  lemma OtherStepsKeepCovered(db: Database, step: Step, announced: set<OperationId>)
    requires DatabaseInv(db) && Apply(db, step).Ok? && !step.DeleteStep? && !step.CommitStep?
    requires Covered(db.outbox, Ops(db.graph.log), announced)
    ensures Covered(Next(db, step).outbox, Ops(db.graph.log), announced)
  {
    var ops, next := Ops(db.graph.log), Next(db, step).outbox;
    forall peer: PeerId, id | id in announced && Owed(next, ops, peer, id) ensures (peer, id) in next.deliveries {
      if step.PeerStep? || step.EnableStep? || step.SpaceStep? {
        ConfigurationCovers(db, step, peer, id);
      } else {
        CommitKeepsPeers(db, step);
      }
      if Owed(db.outbox, ops, peer, id) { RowsAreKept(db, step, (peer, id)); }
    }
  }

  lemma {:induction false} RunKeepsCovered(db: Database, steps: seq<Step>, announced: set<OperationId>)
    requires DatabaseInv(db) && announced <= Ops(db.graph.log).Keys
    requires Covered(db.outbox, Ops(db.graph.log), announced)
    ensures Covered(Run(db, steps).outbox, Ops(Run(db, steps).graph.log), AnnouncedIn(db, steps, announced))
    decreases |steps|
  {
    if steps != [] {
      NextKeepsCovered(db, steps[0], announced);
      NextKeepsInv(db, steps[0]);
      RunKeepsCovered(Next(db, steps[0]), steps[1..], NextAnnounced(db, steps[0], announced));
    }
  }

  /** Coverage: after every run, each enabled push peer has a row for every client-schema operation that was committed
      from Local or a peer in a space configured for it. */
  lemma OutboxCoverage(steps: seq<Step>, peer: PeerId, id: OperationId)
    requires
      var db := Run(EMPTY_DATABASE, steps);
      && id in AnnouncedIn(EMPTY_DATABASE, steps, {}) && Pushes(db.outbox, peer)
      && id in Ops(db.graph.log) && IsClientSchema(Ops(db.graph.log)[id].schema)
      && (peer, Ops(db.graph.log)[id].space) in db.outbox.peerSpaces
    ensures (peer, id) in Run(EMPTY_DATABASE, steps).outbox.deliveries
  {
    EmptyIsCovered();
    RunKeepsCovered(EMPTY_DATABASE, steps, {});
  }

  lemma EmptyIsCovered()
    ensures DatabaseInv(EMPTY_DATABASE) && Covered(EMPTY_DATABASE.outbox, Ops(EMPTY_DATABASE.graph.log), {})
  {
  }

  // ----- isolation -----

  /** While the peer is pushed to, it has a credential or at least one configured space. */
  ghost predicate Guarded(o: Outbox, peer: PeerId) {
    Pushes(o, peer) ==> o.peers[peer].credential.Some? || HasSpaces(o, peer)
  }

  ghost predicate GuardedRun(db: Database, steps: seq<Step>, peer: PeerId)
    decreases |steps|
  {
    Guarded(db.outbox, peer) && (steps == [] || GuardedRun(Next(db, steps[0]), steps[1..], peer))
  }

  ghost predicate Isolated(o: Outbox, ops: OpMap, peer: PeerId) {
    forall id | (peer, id) in o.deliveries && !o.deliveries[(peer, id)].state.Acknowledged? ::
      id in ops && (peer, ops[id].space) in o.peerSpaces
  }

  lemma GuardedScope(o: Outbox, peer: PeerId, space: SpaceId)
    requires Guarded(o, peer) && Pushes(o, peer) && InScope(o, peer, space)
    ensures (peer, space) in o.peerSpaces
  {
  }

  lemma CommitAddsConfigured(db: Database, step: Step, peer: PeerId, id: OperationId)
    requires step.CommitStep? && Apply(db, step).Ok? && Guarded(db.outbox, peer)
    requires (peer, id) !in db.outbox.deliveries && (peer, id) in Next(db, step).outbox.deliveries
    ensures id == step.op.id && (step.source == FromPeer(peer) || (peer, step.op.space) in db.outbox.peerSpaces)
  {
    assert ApplySource(db.outbox, step.op, step.at, step.source) == Ok(Next(db, step).outbox);
    if step.source != FromPeer(peer) { GuardedScope(db.outbox, peer, step.op.space); }
  }

  lemma UpsertAddsConfigured(o: Outbox, log: seq<Entry>, p: PeerId, config: Peer, peer: PeerId, id: OperationId)
    requires UpsertPeer(o, log, p, config).Ok? && Guarded(UpsertPeer(o, log, p, config).value, peer)
    requires (peer, id) !in o.deliveries && (peer, id) in UpsertPeer(o, log, p, config).value.deliveries
    ensures id in Ops(log) && (peer, Ops(log)[id].space) in UpsertPeer(o, log, p, config).value.peerSpaces
  {
    var row := if p in o.peers then config.(addedAt := o.peers[p].addedAt) else config;
    var stored := o.(peers := o.peers[p := row]);
    assert peer == p && id in ClientIds(stored, log, p);
    assert Guarded(stored, p) by { assert HasSpaces(UpsertPeer(o, log, p, config).value, p) ==> HasSpaces(stored, p); }
    GuardedScope(stored, p, Ops(log)[id].space);
  }

  lemma EnableAddsConfigured(o: Outbox, log: seq<Entry>, p: PeerId, enabled: bool, peer: PeerId, id: OperationId)
    requires LegalLog(log) && SetPeerEnabled(o, log, p, enabled).Ok?
    requires Guarded(SetPeerEnabled(o, log, p, enabled).value, peer)
    requires (peer, id) !in o.deliveries && (peer, id) in SetPeerEnabled(o, log, p, enabled).value.deliveries
    ensures id in Ops(log) && (peer, Ops(log)[id].space) in SetPeerEnabled(o, log, p, enabled).value.peerSpaces
  {
    var stored := o.(peers := o.peers[p := o.peers[p].(enabled := enabled)]);
    assert peer == p;
    var e :| e in log && InScope(stored, p, e.op.space) && e.op.id == id;
    EntryIsStored(log, e);
    assert Guarded(stored, p) by { assert HasSpaces(SetPeerEnabled(o, log, p, enabled).value, p) ==> HasSpaces(stored, p); }
    GuardedScope(stored, p, e.op.space);
  }

  lemma SpaceAddsConfigured(db: Database, step: Step, peer: PeerId, id: OperationId)
    requires (step.SpaceStep? || step.RequeueStep?) && Apply(db, step).Ok?
    requires (peer, id) !in db.outbox.deliveries && (peer, id) in Next(db, step).outbox.deliveries
    ensures id in Ops(db.graph.log) && (peer, Ops(db.graph.log)[id].space) in Next(db, step).outbox.peerSpaces
  {
  }

  predicate AddsRows(step: Step) {
    step.CommitStep? || step.PeerStep? || step.EnableStep? || step.SpaceStep? || step.RequeueStep?
  }

  lemma OthersAddNoRows(db: Database, step: Step)
    requires !AddsRows(step)
    ensures Next(db, step).outbox.deliveries.Keys <= db.outbox.deliveries.Keys
  {
  }

  ghost predicate Configured(db: Database, peer: PeerId, id: OperationId) {
    id in Ops(db.graph.log) && (peer, Ops(db.graph.log)[id].space) in db.outbox.peerSpaces
  }

  lemma NewCommitRow(db: Database, step: Step, peer: PeerId, id: OperationId)
    requires DatabaseInv(db) && step.CommitStep? && Apply(db, step).Ok? && Guarded(Next(db, step).outbox, peer)
    requires (peer, id) !in db.outbox.deliveries && (peer, id) in Next(db, step).outbox.deliveries
    requires !Next(db, step).outbox.deliveries[(peer, id)].state.Acknowledged?
    ensures Configured(Next(db, step), peer, id)
  {
    CommitMovesRow(db, step, (peer, id));
    CommitKeepsPeers(db, step);
    GuardedFrame(db.outbox, Next(db, step).outbox, peer);
    CommitAddsConfigured(db, step, peer, id);
    NextHasOperation(db, step);
  }

  lemma GuardedFrame(o: Outbox, next: Outbox, peer: PeerId)
    requires next == o.(deliveries := next.deliveries) && Guarded(next, peer)
    ensures Guarded(o, peer)
  {
  }

  lemma SameLog(db: Database, step: Step)
    requires AddsRows(step) && !step.CommitStep?
    ensures Next(db, step).graph == db.graph
  {
  }

  lemma NewPeerRow(db: Database, step: Step, peer: PeerId, id: OperationId)
    requires DatabaseInv(db) && (step.PeerStep? || step.EnableStep?) && Apply(db, step).Ok?
    requires Guarded(Next(db, step).outbox, peer)
    requires (peer, id) !in db.outbox.deliveries && (peer, id) in Next(db, step).outbox.deliveries
    ensures Configured(Next(db, step), peer, id)
  {
    SameLog(db, step);
    match step
    case PeerStep(p, config) => UpsertAddsConfigured(db.outbox, db.graph.log, p, config, peer, id);
    case EnableStep(p, enabled) => EnableAddsConfigured(db.outbox, db.graph.log, p, enabled, peer, id);
  }

  /** A row added to a guarded peer is for a configured space, unless it is already acknowledged. */
  lemma NewRowIsConfigured(db: Database, step: Step, peer: PeerId, id: OperationId)
    requires DatabaseInv(db) && Guarded(Next(db, step).outbox, peer) && AddsRows(step)
    requires (peer, id) !in db.outbox.deliveries && (peer, id) in Next(db, step).outbox.deliveries
    requires !Next(db, step).outbox.deliveries[(peer, id)].state.Acknowledged?
    ensures Configured(Next(db, step), peer, id)
  {
    if step.CommitStep? {
      NewCommitRow(db, step, peer, id);
    } else if step.PeerStep? || step.EnableStep? {
      NewPeerRow(db, step, peer, id);
    } else {
      SameLog(db, step);
      SpaceAddsConfigured(db, step, peer, id);
    }
  }

  lemma OldRowStaysConfigured(db: Database, step: Step, peer: PeerId, id: OperationId)
    requires DatabaseInv(db) && Isolated(db.outbox, Ops(db.graph.log), peer)
    requires (peer, id) in db.outbox.deliveries && (peer, id) in Next(db, step).outbox.deliveries
    requires !Next(db, step).outbox.deliveries[(peer, id)].state.Acknowledged?
    ensures Configured(Next(db, step), peer, id)
  {
    var space := Ops(db.graph.log)[id].space;
    StepMovesRow(db, step, (peer, id));
    assert !db.outbox.deliveries[(peer, id)].state.Acknowledged?;
    if step == DeleteStep(space) && Apply(db, step).Ok? {
      assert false;
    }
    OperationIsKept(db, step, id);
    SpacesAreKept(db, step, (peer, space));
  }

  lemma SpacesAreKept(db: Database, step: Step, k: (PeerId, SpaceId))
    requires k in db.outbox.peerSpaces && !(step == DeleteStep(k.1) && Apply(db, step).Ok?)
    ensures k in Next(db, step).outbox.peerSpaces
  {
    if !step.PeerStep? && !step.EnableStep? && !step.SpaceStep? && !step.DeleteStep? { CommitKeepsPeers(db, step); }
  }

  lemma NextKeepsIsolated(db: Database, step: Step, peer: PeerId)
    requires DatabaseInv(db) && Isolated(db.outbox, Ops(db.graph.log), peer) && Guarded(Next(db, step).outbox, peer)
    ensures Isolated(Next(db, step).outbox, Ops(Next(db, step).graph.log), peer)
  {
    var next := Next(db, step);
    if !AddsRows(step) { OthersAddNoRows(db, step); }
    forall id | (peer, id) in next.outbox.deliveries && !next.outbox.deliveries[(peer, id)].state.Acknowledged?
      ensures Configured(next, peer, id)
    {
      if (peer, id) in db.outbox.deliveries {
        OldRowStaysConfigured(db, step, peer, id);
      } else {
        NewRowIsConfigured(db, step, peer, id);
      }
    }
  }

  lemma {:induction false} RunKeepsIsolated(db: Database, steps: seq<Step>, peer: PeerId)
    requires DatabaseInv(db) && GuardedRun(db, steps, peer) && Isolated(db.outbox, Ops(db.graph.log), peer)
    ensures Isolated(Run(db, steps).outbox, Ops(Run(db, steps).graph.log), peer)
    decreases |steps|
  {
    if steps != [] {
      var next := Next(db, steps[0]);
      NextKeepsInv(db, steps[0]);
      assert GuardedRun(next, steps[1..], peer);
      NextKeepsIsolated(db, steps[0], peer);
      RunKeepsIsolated(next, steps[1..], peer);
    }
  }

  /** Isolation: a peer that had a credential or a configured space whenever it was pushed to never holds an
      unacknowledged row for an operation outside its configured spaces. */
  lemma PeerIsolation(steps: seq<Step>, peer: PeerId, id: OperationId)
    requires GuardedRun(EMPTY_DATABASE, steps, peer)
    requires
      var o := Run(EMPTY_DATABASE, steps).outbox;
      (peer, id) in o.deliveries && !o.deliveries[(peer, id)].state.Acknowledged?
    ensures
      var db := Run(EMPTY_DATABASE, steps);
      id in Ops(db.graph.log) && (peer, Ops(db.graph.log)[id].space) in db.outbox.peerSpaces
  {
    RunKeepsIsolated(EMPTY_DATABASE, steps, peer);
  }
}
