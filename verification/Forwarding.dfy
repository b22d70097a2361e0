/** Draining one store's outbox into an empty store: log order satisfies every reference, and the head cap alone decides. */
module Forwarding {
  import opened Wrappers
  import opened Operations
  import opened OperationGraph
  import opened GraphInvariants
  import opened EntityHistories
  import opened Outbox
  import opened ClientDatabase
  import opened StoreRuns
  import opened DeliveryBatches
  import opened CommitAcceptance

  // ----- the receiver mirrors a prefix of the sender's log -----

  ghost predicate Mirrors(mirror: seq<Entry>, log: seq<Entry>, n: nat) {
    n <= |log| && |mirror| == n && forall i | 0 <= i < n :: mirror[i].op == log[i].op
  }

  lemma {:induction false} SameOps(one: seq<Entry>, two: seq<Entry>)
    requires |one| == |two| && forall i | 0 <= i < |one| :: one[i].op == two[i].op
    ensures Ops(one) == Ops(two)
    decreases |one|
  {
    if one != [] {
      var n := |one| - 1;
      assert one[n].op == two[n].op;
      SameOps(one[..n], two[..n]);
    }
  }

  lemma {:induction false} LegalAt(log: seq<Entry>, n: nat)
    requires LegalLog(log) && n < |log|
    ensures LegalNext(Ops(log[..n]), log[n].op)
    decreases |log|
  {
    var init := log[..|log| - 1];
    if n < |init| {
      LegalAt(init, n);
      assert init[..n] == log[..n] && init[n] == log[n];
    }
  }

  /** The operation at this position is within the head cap of those before it. */
  ghost predicate CapAt(log: seq<Entry>, n: nat) { n < |log| && WithinCap(Ops(log[..n]), log[n].op) }

  ghost predicate CappedFrom(log: seq<Entry>, from: nat, to: nat) { forall n: nat | from <= n < to :: CapAt(log, n) }

  lemma {:induction false} CappedPrefix(log: seq<Entry>, k: nat)
    requires k <= |log|
    ensures CappedLog(log[..k]) <==> CappedFrom(log, 0, k)
    decreases k
  {
    if k > 0 {
      CappedPrefix(log, k - 1);
      assert log[..k][..k - 1] == log[..k - 1] && log[..k][k - 1] == log[k - 1];
      assert CappedFrom(log, 0, k) <==> CappedFrom(log, 0, k - 1) && CapAt(log, k - 1);
    }
  }

  ghost predicate SenderReady(sender: Database) {
    LegalLog(sender.graph.log) && HeadedLog(sender.graph.log) && ResourcesKnown(sender)
  }

  ghost predicate ReceiverAt(receiver: Database, origin: Database, n: nat, source: CommitSource) {
    && DatabaseInv(receiver) && Exact(receiver)
    && Mirrors(receiver.graph.log, origin.graph.log, n)
    && LengthsWithin(receiver.media, origin.media) && SourceKnown(receiver.outbox, source)
  }

  lemma MirrorNext(mirror: seq<Entry>, log: seq<Entry>, n: nat)
    requires LegalLog(log) && n < |log| && Mirrors(mirror, log, n)
    ensures LegalNext(Ops(mirror), log[n].op) && (CapAt(log, n) <==> WithinCap(Ops(mirror), log[n].op))
  {
    LegalAt(log, n);
    SameOps(mirror, log[..n]);
  }

  lemma MirrorGrows(mirror: seq<Entry>, log: seq<Entry>, n: nat, e: Entry)
    requires Mirrors(mirror, log, n) && n < |log| && e.op == log[n].op
    ensures Mirrors(mirror + [e], log, n + 1)
  {
  }

  lemma RefusedTopology(g: Graph, op: Operation)
    requires HeadsExact(Ops(g.log), g.derived.heads) && LegalNext(Ops(g.log), op) && !WithinCap(Ops(g.log), op)
    requires Headed(Ops(g.log), KeyOf(op))
    ensures CheckReferences(g.log, op).Ok? && CheckTopology(g, op) == Err(TooManyHeads)
  {
    ReferencesExact(g.log, op);
    TopologyExact(g, op);
    FirstMismatchNone(g.log, op, op.parents);
    HistoryIsEmpty(g.log, KeyOf(op));
    LegalHistory(g.log, op);
  }

  lemma RefusedCommit(db: Database, op: Operation, at: int, source: CommitSource)
    requires Verified(op) && 0 <= at && op.id !in Ops(db.graph.log)
    requires CheckReferences(db.graph.log, op).Ok? && CheckTopology(db.graph, op).Err?
    ensures Commit(db, op, at, source) == Err(CheckTopology(db.graph, op).error)
  {
  }

  lemma MirrorAdmits(g: Graph, log: seq<Entry>, n: nat, at: int, local: bool)
    requires Inv(g) && HeadsExact(Ops(g.log), g.derived.heads)
    requires LegalLog(log) && CapAt(log, n) && Mirrors(g.log, log, n)
    ensures
      var op := log[n].op;
      && Verified(op) && op.id !in Ops(g.log) && Admit(g, op, at, local).Ok?
      && Mirrors(Admit(g, op, at, local).value.log, log, n + 1)
  {
    var op := log[n].op;
    MirrorNext(g.log, log, n);
    LegalIsAdmitted(g, op, at, local);
    AdmitAppends(g, op, at, local);
    MirrorGrows(g.log, log, n, Entry(g.lastSequence + 1, op, at, local));
  }

  lemma SenderKnows(sender: Database, n: nat)
    requires SenderReady(sender) && n < |sender.graph.log|
    ensures Knows(sender.media, sender.graph.log[n].op, |Resources(sender.graph.log[n].op.body)|)
  {
    EntryIsStored(sender.graph.log, sender.graph.log[n]);
  }

  lemma CommitKeepsHealthy(db: Database, op: Operation, at: int, source: CommitSource)
    requires DatabaseInv(db) && Exact(db) && Commit(db, op, at, source).Ok?
    ensures DatabaseInv(Commit(db, op, at, source).value) && Exact(Commit(db, op, at, source).value)
  {
    NextKeepsInv(db, CommitStep(op, at, source));
    NextKeepsExact(db, CommitStep(op, at, source));
  }

  lemma MirrorAccepts(sender: Database, receiver: Database, n: nat, at: int, source: CommitSource)
    requires SenderReady(sender) && ReceiverAt(receiver, sender, n, source) && 0 <= at && CapAt(sender.graph.log, n)
    ensures
      var next := Commit(receiver, sender.graph.log[n].op, at, source);
      next.Ok? && ReceiverAt(next.value, sender, n + 1, source)
  {
    var op := sender.graph.log[n].op;
    SenderKnows(sender, n);
    MirrorAdmits(receiver.graph, sender.graph.log, n, at, source.Local?);
    NewOperationIsCommitted(receiver, sender.media, op, at, source);
    CommitAdmits(receiver, op, at, source);
    CommitKeepsHealthy(receiver, op, at, source);
  }

  lemma MirrorRefuses(sender: Database, receiver: Database, n: nat, at: int, source: CommitSource)
    requires SenderReady(sender) && ReceiverAt(receiver, sender, n, source) && 0 <= at
    requires n < |sender.graph.log| && !CapAt(sender.graph.log, n)
    ensures
      var next := Commit(receiver, sender.graph.log[n].op, at, source);
      next == Err(TooManyHeads)
  {
    var op := sender.graph.log[n].op;
    MirrorNext(receiver.graph.log, sender.graph.log, n);
    HeadedAt(sender.graph.log, n);
    SameOps(receiver.graph.log, sender.graph.log[..n]);
    RefusedTopology(receiver.graph, op);
    RefusedCommit(receiver, op, at, source);
  }

  /** The sender's next operation in order is taken if and only if it is within the head cap of those before it; a
      refusal is never a missing parent or authorization. */
  lemma MirrorExtends(sender: Database, receiver: Database, n: nat, at: int, source: CommitSource)
    requires SenderReady(sender) && ReceiverAt(receiver, sender, n, source) && n < |sender.graph.log| && 0 <= at
    ensures
      var next := Commit(receiver, sender.graph.log[n].op, at, source);
      if CapAt(sender.graph.log, n) then next.Ok? && ReceiverAt(next.value, sender, n + 1, source)
      else next == Err(TooManyHeads)
  {
    if CapAt(sender.graph.log, n) {
      MirrorAccepts(sender, receiver, n, at, source);
    } else {
      MirrorRefuses(sender, receiver, n, at, source);
    }
  }

  /** The receiver's side of a batch: commits in order, stopping at the first refusal. */
  function Receive(receiver: Database, ops: seq<Operation>, at: int, source: CommitSource): Result<Database, StoreError>
    decreases |ops|
  {
    if ops == [] then Ok(receiver)
    else
      match Commit(receiver, ops[0], at, source)
      case Err(e) => Err(e)
      case Ok(next) => Receive(next, ops[1..], at, source)
  }

  /** The outcome of a batch: taken whole, or refused for the head cap. */
  ghost predicate Taken(r: Result<Database, StoreError>, origin: Database, from: nat, to: nat, source: CommitSource) {
    if CappedFrom(origin.graph.log, from, to) then r.Ok? && ReceiverAt(r.value, origin, to, source)
    else r == Err(TooManyHeads)
  }

  lemma ReceiveCons(receiver: Database, ops: seq<Operation>, at: int, source: CommitSource)
    requires ops != []
    ensures Receive(receiver, ops, at, source) ==
            match Commit(receiver, ops[0], at, source)
            case Err(e) => Err(e)
            case Ok(next) => Receive(next, ops[1..], at, source)
  {
  }

  lemma RefusedFrom(log: seq<Entry>, from: nat, to: nat)
    requires from < to && !CapAt(log, from)
    ensures !CappedFrom(log, from, to)
  {
  }

  lemma {:induction false} ReceiveIsExact(receiver: Database, sender: Database, done: nat, held: nat, at: int,
                                          source: CommitSource)
    requires SenderReady(sender) && ReceiverAt(receiver, sender, done, source) && 0 <= at
    requires done <= held <= |sender.graph.log|
    ensures Taken(Receive(receiver, OpsOf(sender.graph.log[done..held]), at, source), sender, done, held, source)
    decreases held - done
  {
    var log := sender.graph.log;
    if done < held {
      MirrorExtends(sender, receiver, done, at, source);
      BatchHead(log, done, held);
      ReceiveCons(receiver, OpsOf(log[done..held]), at, source);
      if CapAt(log, done) {
        ReceiveIsExact(Commit(receiver, log[done].op, at, source).value, sender, done + 1, held, at, source);
        CappedSplits(log, done, done + 1, held);
        assert CappedFrom(log, done, done + 1);
      } else {
        RefusedFrom(log, done, held);
      }
    }
  }

  lemma CappedSplits(log: seq<Entry>, from: nat, middle: nat, to: nat)
    requires from <= middle <= to
    ensures CappedFrom(log, from, to) <==> CappedFrom(log, from, middle) && CappedFrom(log, middle, to)
  {
  }

  lemma BatchHead(log: seq<Entry>, done: nat, held: nat)
    requires done < held <= |log|
    ensures OpsOf(log[done..held]) == [log[done].op] + OpsOf(log[done + 1..held])
    ensures OpsOf(log[done..held])[1..] == OpsOf(log[done + 1..held])
  {
    assert log[done..held] == [log[done]] + log[done + 1..held];
  }

  // ----- the sender's rows -----

  predicate Fits(d: Delivery) { d.attemptCount < U32_MAX }

  /** Of the sender's log, the first `done` are acknowledged, those up to `held` are leased, and the rest are due. */
  ghost predicate RowsAt(o: Outbox, log: seq<Entry>, peer: PeerId, now: int, done: nat, held: nat, lease: LeaseId) {
    && done <= held <= |log| && peer in o.peers && o.peers[peer].enabled
    && (forall i | 0 <= i < |log| :: (peer, log[i].op.id) in o.deliveries)
    && (forall i | 0 <= i < done :: o.deliveries[(peer, log[i].op.id)].state.Acknowledged?)
    && (forall i | done <= i < held :: Holds(o.deliveries[(peer, log[i].op.id)], lease))
    && (forall i | held <= i < |log| ::
          IsDue(o.deliveries[(peer, log[i].op.id)], now) && Fits(o.deliveries[(peer, log[i].op.id)]))
  }

  function OpsOf(log: seq<Entry>): (ops: seq<Operation>)
    ensures |ops| == |log| && forall i | 0 <= i < |log| :: ops[i] == log[i].op
  {
    if log == [] then [] else [log[0].op] + OpsOf(log[1..])
  }

  lemma {:induction false} DueIsRest(o: Outbox, log: seq<Entry>, peer: PeerId, now: int, done: nat, lease: LeaseId)
    requires RowsAt(o, log, peer, now, done, done, lease)
    ensures Due(o, log, peer, now) == OpsOf(log[done..])
    decreases |log|
  {
    if log != [] {
      var rest := if done == 0 then 0 else done - 1;
      assert log[done..] == if done == 0 then [log[0]] + log[1..] else log[1..][rest..];
      DueIsRest(o, log[1..], peer, now, rest, lease);
      assert log[1..][0..] == log[1..];
    }
  }

  lemma LeaseTakesNext(o: Outbox, log: seq<Entry>, peer: PeerId, now: int, done: nat, held: nat, lease: LeaseId, expires: int)
    requires RowsAt(o, log, peer, now, done, done, lease) && DistinctIds(log) && done <= held <= |log|
    ensures
      var rows := LeaseRows(o.deliveries, peer, OpsOf(log[done..held]), lease, expires);
      RowsAt(o.(deliveries := rows), log, peer, now, done, held, lease)
  {
    var batch := OpsOf(log[done..held]);
    var rows := LeaseRows(o.deliveries, peer, batch, lease, expires);
    forall i | 0 <= i < |log|
      ensures (peer, log[i].op.id) in rows
      ensures rows[(peer, log[i].op.id)] ==
              var d := o.deliveries[(peer, log[i].op.id)]; if done <= i < held then LeaseRow(d, lease, expires) else d
    {
      if done <= i < held { assert batch[i - done].id == log[i].op.id; }
    }
  }

  lemma AcknowledgeNext(o: Outbox, log: seq<Entry>, peer: PeerId, now: int, done: nat, held: nat, lease: LeaseId, at: int)
    requires RowsAt(o, log, peer, now, done, held, lease) && DistinctIds(log) && done < held && 0 <= at
    ensures
      var next := Finish(o, peer, log[done].op.id, lease, Acknowledge, at, None);
      && next.Ok? && RowsAt(next.value, log, peer, now, done + 1, held, lease)
      && next.value == o.(deliveries := next.value.deliveries)
  {
    assert Holds(o.deliveries[(peer, log[done].op.id)], lease);
  }

  /** The sender's side of a batch. */
  function AcknowledgeAll(o: Outbox, peer: PeerId, ops: seq<Operation>, lease: LeaseId, at: int): Result<Outbox, StoreError>
    decreases |ops|
  {
    if ops == [] then Ok(o)
    else
      match Finish(o, peer, ops[0].id, lease, Acknowledge, at, None)
      case Err(e) => Err(e)
      case Ok(next) => AcknowledgeAll(next, peer, ops[1..], lease, at)
  }

  lemma {:induction false} AcknowledgeSucceeds(o: Outbox, log: seq<Entry>, peer: PeerId, now: int, done: nat, held: nat,
                                               lease: LeaseId, at: int)
    requires RowsAt(o, log, peer, now, done, held, lease) && DistinctIds(log) && 0 <= at
    ensures
      var next := AcknowledgeAll(o, peer, OpsOf(log[done..held]), lease, at);
      next.Ok? && RowsAt(next.value, log, peer, now, held, held, lease)
    decreases held - done
  {
    if done < held {
      AcknowledgeNext(o, log, peer, now, done, held, lease, at);
      var next := Finish(o, peer, log[done].op.id, lease, Acknowledge, at, None).value;
      AcknowledgeSucceeds(next, log, peer, now, done + 1, held, lease, at);
      BatchHead(log, done, held);
    }
  }

  // ----- rounds -----

  datatype Link = Link(sender: Database, receiver: Database)

  /** Applies a leased batch in order, acknowledging each operation the receiver took. */
  function Transfer(l: Link, peer: PeerId, ops: seq<Operation>, lease: LeaseId, at: int, source: CommitSource)
    : Result<Link, StoreError>
    decreases |ops|
  {
    if ops == [] then Ok(l)
    else
      match Commit(l.receiver, ops[0], at, source)
      case Err(e) => Err(e)
      case Ok(receiver) =>
        match Finish(l.sender.outbox, peer, ops[0].id, lease, Acknowledge, at, None)
        case Err(e) => Err(e)
        case Ok(outbox) => Transfer(Link(l.sender.(outbox := outbox), receiver), peer, ops[1..], lease, at, source)
  }

  lemma {:induction false} TransferSplits(l: Link, peer: PeerId, ops: seq<Operation>, lease: LeaseId, at: int,
                                          source: CommitSource)
    requires AcknowledgeAll(l.sender.outbox, peer, ops, lease, at).Ok?
    ensures Transfer(l, peer, ops, lease, at, source) ==
            match Receive(l.receiver, ops, at, source)
            case Err(e) => Err(e)
            case Ok(receiver) =>
              Ok(Link(l.sender.(outbox := AcknowledgeAll(l.sender.outbox, peer, ops, lease, at).value), receiver))
    decreases |ops|
  {
    if ops != [] && Commit(l.receiver, ops[0], at, source).Ok? {
      var receiver := Commit(l.receiver, ops[0], at, source).value;
      var outbox := Finish(l.sender.outbox, peer, ops[0].id, lease, Acknowledge, at, None).value;
      TransferSplits(Link(l.sender.(outbox := outbox), receiver), peer, ops[1..], lease, at, source);
    }
  }

  datatype Tick = Tick(now: int, leaseMs: int, lease: LeaseId)

  function Round(l: Link, peer: PeerId, tick: Tick, limit: nat, source: CommitSource): Result<Link, StoreError> {
    match LeaseDue(l.sender.outbox, l.sender.graph.log, peer, tick.now, tick.leaseMs, limit, tick.lease)
    case Err(e) => Err(e)
    case Ok(leased) =>
      Transfer(Link(l.sender.(outbox := leased.0), l.receiver), peer, leased.1, tick.lease, tick.now, source)
  }

  function RoundOf(peer: PeerId, limit: nat, source: CommitSource): (Link, Tick) -> Result<Link, StoreError> {
    (l, tick) => Round(l, peer, tick, limit, source)
  }

  /** Repeats a round once per tick, stopping at the first error. */
  function Repeat(round: (Link, Tick) -> Result<Link, StoreError>, l: Link, ticks: seq<Tick>): Result<Link, StoreError>
    decreases |ticks|
  {
    if ticks == [] then Ok(l)
    else
      match round(l, ticks[0])
      case Err(e) => Err(e)
      case Ok(next) => Repeat(round, next, ticks[1..])
  }

  function Rounds(l: Link, peer: PeerId, ticks: seq<Tick>, limit: nat, source: CommitSource): Result<Link, StoreError> {
    Repeat(RoundOf(peer, limit, source), l, ticks)
  }

  /** The link has moved `done` operations; the rest are due. */
  ghost predicate LinkAt(l: Link, origin: Database, peer: PeerId, now: int, done: nat, source: CommitSource) {
    && l.sender == origin.(outbox := l.sender.outbox)
    && RowsAt(l.sender.outbox, origin.graph.log, peer, now, done, done, 0)
    && ReceiverAt(l.receiver, origin, done, source)
  }

  function After(done: nat, limit: nat, n: nat): nat { if done + limit <= n then done + limit else n }

  lemma BatchIsNext(log: seq<Entry>, done: nat, limit: nat)
    requires done <= |log|
    ensures Take(OpsOf(log[done..]), limit) == OpsOf(log[done..After(done, limit, |log|)])
  {
  }

  lemma LeaseIsIrrelevant(o: Outbox, log: seq<Entry>, peer: PeerId, now: int, done: nat, lease: LeaseId, other: LeaseId)
    requires RowsAt(o, log, peer, now, done, done, lease)
    ensures RowsAt(o, log, peer, now, done, done, other)
  {
  }

  ghost predicate GoodTick(tick: Tick) { 0 <= tick.now && ValidLease(tick.now, tick.leaseMs) }

  lemma RoundLeases(o: Outbox, log: seq<Entry>, peer: PeerId, tick: Tick, limit: nat, done: nat) returns (next: Outbox)
    requires DistinctIds(log) && RowsAt(o, log, peer, tick.now, done, done, tick.lease)
    requires GoodTick(tick) && 1 <= limit <= MAX_OUTBOX_BATCH
    ensures LeaseDue(o, log, peer, tick.now, tick.leaseMs, limit, tick.lease) ==
            Ok((next, OpsOf(log[done..After(done, limit, |log|)])))
    ensures RowsAt(next, log, peer, tick.now, done, After(done, limit, |log|), tick.lease)
  {
    var held := After(done, limit, |log|);
    var batch := OpsOf(log[done..held]);
    next := o.(deliveries := LeaseRows(o.deliveries, peer, batch, tick.lease, tick.now + tick.leaseMs));
    LeaseTakesNext(o, log, peer, tick.now, done, held, tick.lease, tick.now + tick.leaseMs);
    BatchFits(o, log, peer, tick.now, done, held, tick.lease);
    DueBatch(o, log, peer, tick.now, limit, done, tick.lease);
    LeaseDueIs(o, log, peer, tick, limit, batch);
  }

  lemma DueBatch(o: Outbox, log: seq<Entry>, peer: PeerId, now: int, limit: nat, done: nat, lease: LeaseId)
    requires RowsAt(o, log, peer, now, done, done, lease)
    ensures Take(Due(o, log, peer, now), limit) == OpsOf(log[done..After(done, limit, |log|)])
  {
    DueIsRest(o, log, peer, now, done, lease);
    BatchIsNext(log, done, limit);
  }

  lemma LeaseDueIs(o: Outbox, log: seq<Entry>, peer: PeerId, tick: Tick, limit: nat, batch: seq<Operation>)
    requires GoodTick(tick) && 1 <= limit <= MAX_OUTBOX_BATCH
    requires batch == Take(Due(o, log, peer, tick.now), limit) && AttemptsFit(o.deliveries, peer, batch)
    ensures LeaseDue(o, log, peer, tick.now, tick.leaseMs, limit, tick.lease) ==
            Ok((o.(deliveries := LeaseRows(o.deliveries, peer, batch, tick.lease, tick.now + tick.leaseMs)), batch))
  {
  }

  lemma BatchFits(o: Outbox, log: seq<Entry>, peer: PeerId, now: int, done: nat, held: nat, lease: LeaseId)
    requires RowsAt(o, log, peer, now, done, done, lease) && done <= held <= |log|
    ensures AttemptsFit(o.deliveries, peer, OpsOf(log[done..held]))
  {
    var batch := OpsOf(log[done..held]);
    forall i | 0 <= i < |batch| ensures o.deliveries[(peer, batch[i].id)].attemptCount < U32_MAX {
      assert batch[i] == log[done + i].op;
      assert Fits(o.deliveries[(peer, log[done + i].op.id)]);
    }
  }

  /** The outcome of rounds that would move the link from one position to another. */
  ghost predicate Reaches(r: Result<Link, StoreError>, origin: Database, peer: PeerId, now: int, from: nat, to: nat,
                          source: CommitSource)
  {
    if CappedFrom(origin.graph.log, from, to) then r.Ok? && LinkAt(r.value, origin, peer, now, to, source)
    else r == Err(TooManyHeads)
  }

  /** Every round moves `limit` operations, or all that are left, if and only if they are within the head cap. */
  lemma RoundIsExact(l: Link, origin: Database, peer: PeerId, tick: Tick, limit: nat, done: nat, source: CommitSource)
    requires SenderReady(origin) && LinkAt(l, origin, peer, tick.now, done, source)
    requires GoodTick(tick) && 1 <= limit <= MAX_OUTBOX_BATCH
    ensures Reaches(Round(l, peer, tick, limit, source), origin, peer, tick.now, done, After(done, limit, |origin.graph.log|), source)
  {
    var log := origin.graph.log;
    var held := After(done, limit, |log|);
    LegalIsDistinct(log);
    LeaseIsIrrelevant(l.sender.outbox, log, peer, tick.now, done, 0, tick.lease);
    var leased := RoundLeases(l.sender.outbox, log, peer, tick, limit, done);
    var batch := OpsOf(log[done..held]);
    AcknowledgeSucceeds(leased, log, peer, tick.now, done, held, tick.lease, tick.now);
    ReceiveIsExact(l.receiver, origin, done, held, tick.now, source);
    TransferSplits(Link(l.sender.(outbox := leased), l.receiver), peer, batch, tick.lease, tick.now, source);
    var acked := AcknowledgeAll(leased, peer, batch, tick.lease, tick.now).value;
    LeaseIsIrrelevant(acked, log, peer, tick.now, held, tick.lease, 0);
  }

  /** Clock readings of the rounds never go back, and every lease is valid. */
  ghost predicate GoodTicks(ticks: seq<Tick>, from: int)
    decreases |ticks|
  {
    ticks == [] || (GoodTick(ticks[0]) && from <= ticks[0].now && GoodTicks(ticks[1..], ticks[0].now))
  }

  function LastTime(ticks: seq<Tick>, from: int): int
    decreases |ticks|
  {
    if ticks == [] then from else LastTime(ticks[1..], ticks[0].now)
  }

  lemma LaterIsDue(o: Outbox, log: seq<Entry>, peer: PeerId, now: int, later: int, done: nat)
    requires RowsAt(o, log, peer, now, done, done, 0) && (now <= later || done == |log|)
    ensures RowsAt(o, log, peer, later, done, done, 0)
  {
  }

  lemma LinkLater(l: Link, origin: Database, peer: PeerId, now: int, later: int, done: nat, source: CommitSource)
    requires LinkAt(l, origin, peer, now, done, source) && now <= later
    ensures LinkAt(l, origin, peer, later, done, source)
  {
    LaterIsDue(l.sender.outbox, origin.graph.log, peer, now, later, done);
  }

  function Moved(done: nat, rounds: nat, limit: nat, n: nat): nat
    decreases rounds
  {
    if rounds == 0 then done else Moved(After(done, limit, n), rounds - 1, limit, n)
  }

  /** How many of `n` operations that many full rounds move. */
  function Forwarded(rounds: nat, limit: nat, n: nat): nat { if rounds * limit <= n then rounds * limit else n }

  lemma {:induction false} MovedIsProduct(done: nat, rounds: nat, limit: nat, n: nat)
    requires done <= n
    ensures Moved(done, rounds, limit, n) == if done + rounds * limit <= n then done + rounds * limit else n
    decreases rounds
  {
    if rounds != 0 {
      MovedIsProduct(After(done, limit, n), rounds - 1, limit, n);
      assert rounds * limit == limit + (rounds - 1) * limit;
      assert 0 <= (rounds - 1) * limit;
    }
  }

  type Position = (Link, int, nat) -> bool

  /** What rounds from one count to another come to, for an abstract position and an abstract condition on the way. */
  ghost predicate ComesTo(r: Result<Link, StoreError>, at: Position, passes: (nat, nat) -> bool, now: int, from: nat, to: nat) {
    if passes(from, to) then r.Ok? && at(r.value, now, to) else r == Err(TooManyHeads)
  }

  /** If every good round comes to its outcome, so does any number of them. */
  lemma {:induction false} RepeatIsExact(round: (Link, Tick) -> Result<Link, StoreError>, at: Position,
                                         passes: (nat, nat) -> bool, l: Link, now: int, ticks: seq<Tick>, limit: nat,
                                         n: nat, done: nat)
    requires forall l, t: Tick, d: nat | at(l, t.now, d) && GoodTick(t) && d <= n ::
               ComesTo(round(l, t), at, passes, t.now, d, After(d, limit, n))
    requires forall l, t: int, later: int, d: nat | at(l, t, d) && t <= later :: at(l, later, d)
    requires forall d: nat :: passes(d, d)
    requires forall x: nat, y: nat, z: nat | x <= y <= z :: passes(x, z) <==> passes(x, y) && passes(y, z)
    requires at(l, now, done) && done <= n && GoodTicks(ticks, now)
    ensures ComesTo(Repeat(round, l, ticks), at, passes, LastTime(ticks, now), done, Moved(done, |ticks|, limit, n))
    decreases |ticks|
  {
    if ticks != [] {
      assert at(l, ticks[0].now, done);
      var next := After(done, limit, n);
      MovedIsProduct(next, |ticks| - 1, limit, n);
      assert 0 <= (|ticks| - 1) * limit;
      assert ComesTo(round(l, ticks[0]), at, passes, ticks[0].now, done, next);
      assert passes(done, Moved(next, |ticks| - 1, limit, n)) <==> passes(done, next) && passes(next, Moved(next, |ticks| - 1, limit, n));
      if passes(done, next) {
        RepeatIsExact(round, at, passes, round(l, ticks[0]).value, ticks[0].now, ticks[1..], limit, n, next);
      }
    }
  }

  ghost function PositionOf(origin: Database, peer: PeerId, source: CommitSource): Position {
    (l: Link, now: int, done: nat) => LinkAt(l, origin, peer, now, done, source)
  }

  ghost function CapOf(log: seq<Entry>): (nat, nat) -> bool { (from: nat, to: nat) => CappedFrom(log, from, to) }

  lemma RoundsAreExact(l: Link, origin: Database, peer: PeerId, now: int, ticks: seq<Tick>, limit: nat, source: CommitSource)
    requires SenderReady(origin) && LinkAt(l, origin, peer, now, 0, source)
    requires GoodTicks(ticks, now) && 1 <= limit <= MAX_OUTBOX_BATCH
    ensures Reaches(Rounds(l, peer, ticks, limit, source), origin, peer, LastTime(ticks, now), 0,
                    Forwarded(|ticks|, limit, |origin.graph.log|), source)
  {
    var round, at, passes := RoundOf(peer, limit, source), PositionOf(origin, peer, source), CapOf(origin.graph.log);
    var n := |origin.graph.log|;
    forall l, t: Tick, d: nat | at(l, t.now, d) && GoodTick(t) && d <= n
      ensures ComesTo(round(l, t), at, passes, t.now, d, After(d, limit, n))
    {
      RoundIsExact(l, origin, peer, t, limit, d, source);
    }
    forall l, t: int, later: int, d: nat | at(l, t, d) && t <= later ensures at(l, later, d) {
      LinkLater(l, origin, peer, t, later, d, source);
    }
    forall x: nat, y: nat, z: nat | x <= y <= z ensures passes(x, z) <==> passes(x, y) && passes(y, z) {
      CappedSplits(origin.graph.log, x, y, z);
    }
    MovedIsProduct(0, |ticks|, limit, n);
    RepeatIsExact(round, at, passes, l, now, ticks, limit, n, 0);
  }

  // ----- the theorem -----

  /** The store has never seen an operation or a resource; its peers may already be configured. */
  ghost predicate Unused(db: Database) { DatabaseInv(db) && db.graph == EMPTY_GRAPH && db.media.resources == map[] }

  /** Every stored operation has a due row for the enabled peer, with attempts to spare. */
  ghost predicate AllDue(db: Database, peer: PeerId, now: int) { RowsAt(db.outbox, db.graph.log, peer, now, 0, 0, 0) }

  lemma DueAfter(l: Link, origin: Database, peer: PeerId, now: int, done: nat, source: CommitSource, later: int)
    requires LinkAt(l, origin, peer, now, done, source) && (now <= later || done == |origin.graph.log|)
    ensures Due(l.sender.outbox, origin.graph.log, peer, later) == OpsOf(origin.graph.log[done..])
  {
    LaterIsDue(l.sender.outbox, origin.graph.log, peer, now, later, done);
    DueIsRest(l.sender.outbox, origin.graph.log, peer, later, done, 0);
  }

  lemma UnusedMirrors(sender: Database, receiver: Database, source: CommitSource)
    requires Unused(receiver) && SourceKnown(receiver.outbox, source)
    ensures ReceiverAt(receiver, sender, 0, source)
  {
  }

  lemma LinkStarts(sender: Database, receiver: Database, peer: PeerId, now: int, source: CommitSource)
    requires AllDue(sender, peer, now) && Unused(receiver) && SourceKnown(receiver.outbox, source)
    ensures LinkAt(Link(sender, receiver), sender, peer, now, 0, source)
  {
    UnusedMirrors(sender, receiver, source);
  }

  lemma ForwardingReaches(sender: Database, receiver: Database, peer: PeerId, now: int, ticks: seq<Tick>, limit: nat,
                          source: CommitSource)
    requires SenderReady(sender) && AllDue(sender, peer, now)
    requires Unused(receiver) && SourceKnown(receiver.outbox, source)
    requires GoodTicks(ticks, now) && 1 <= limit <= MAX_OUTBOX_BATCH
    ensures Reaches(Rounds(Link(sender, receiver), peer, ticks, limit, source), sender, peer, LastTime(ticks, now), 0,
                    Forwarded(|ticks|, limit, |sender.graph.log|), source)
  {
    LinkStarts(sender, receiver, peer, now, source);
    RoundsAreExact(Link(sender, receiver), sender, peer, now, ticks, limit, source);
  }

  lemma SenderIsReady(steps: seq<Step>)
    ensures SenderReady(Run(EMPTY_DATABASE, steps))
  {
    ReachableKnown(steps);
    EmptyIsExact();
    RunKeepsInv(EMPTY_DATABASE, steps);
    RunKeepsHeaded(EMPTY_DATABASE, steps);
  }

  /** Causal forwarding from every reachable store, whatever its run: the rounds go through if and only if the operations
      they move were each within the head cap of those before them; otherwise they stop at the cap, never at a missing
      parent or authorization. When they go through, the receiver holds exactly those operations and exactly the others
      stay due, in order. */
  lemma ForwardingIsExact(steps: seq<Step>, receiver: Database, peer: PeerId, now: int, ticks: seq<Tick>, limit: nat,
                          source: CommitSource, later: int)
    requires AllDue(Run(EMPTY_DATABASE, steps), peer, now)
    requires Unused(receiver) && SourceKnown(receiver.outbox, source)
    requires GoodTicks(ticks, now) && 1 <= limit <= MAX_OUTBOX_BATCH && LastTime(ticks, now) <= later
    ensures
      var sender := Run(EMPTY_DATABASE, steps);
      var end := Rounds(Link(sender, receiver), peer, ticks, limit, source);
      var moved := Forwarded(|ticks|, limit, |sender.graph.log|);
      && (end.Ok? <==> CappedLog(sender.graph.log[..moved]))
      && (end.Err? ==> end.error == TooManyHeads)
      && (end.Ok? ==>
            && end.value.sender.graph == sender.graph
            && Mirrors(end.value.receiver.graph.log, sender.graph.log, moved)
            && Due(end.value.sender.outbox, sender.graph.log, peer, later) == OpsOf(sender.graph.log[moved..]))
  {
    var sender := Run(EMPTY_DATABASE, steps);
    var moved := Forwarded(|ticks|, limit, |sender.graph.log|);
    SenderIsReady(steps);
    ForwardingReaches(sender, receiver, peer, now, ticks, limit, source);
    CappedPrefix(sender.graph.log, moved);
    var end := Rounds(Link(sender, receiver), peer, ticks, limit, source);
    if end.Ok? { DueAfter(end.value, sender, peer, LastTime(ticks, now), moved, source, later); }
  }

  /** Once the rounds cover the log they drain it if and only if the log is capped, and then the receiver has the
      sender's tables if and only if the sender's heads are exact. */
  lemma DrainedReceiver(steps: seq<Step>, receiver: Database, peer: PeerId, now: int, ticks: seq<Tick>, limit: nat,
                        source: CommitSource)
    requires AllDue(Run(EMPTY_DATABASE, steps), peer, now)
    requires Unused(receiver) && SourceKnown(receiver.outbox, source)
    requires GoodTicks(ticks, now) && 1 <= limit <= MAX_OUTBOX_BATCH
    requires |ticks| * limit >= |Run(EMPTY_DATABASE, steps).graph.log|
    ensures
      var sender := Run(EMPTY_DATABASE, steps);
      var end := Rounds(Link(sender, receiver), peer, ticks, limit, source);
      && (end.Ok? <==> CappedLog(sender.graph.log))
      && (end.Ok? ==> (end.value.receiver.graph.derived == sender.graph.derived <==> Exact(sender)))
  {
    var sender := Run(EMPTY_DATABASE, steps);
    var n := |sender.graph.log|;
    SenderIsReady(steps);
    ForwardingReaches(sender, receiver, peer, now, ticks, limit, source);
    CappedPrefix(sender.graph.log, n);
    assert sender.graph.log[..n] == sender.graph.log;
    var end := Rounds(Link(sender, receiver), peer, ticks, limit, source);
    if end.Ok? {
      EmptyIsExact();
      RunKeepsInv(EMPTY_DATABASE, steps);
      LinkConverges(end.value, sender, peer, LastTime(ticks, now), source);
    }
  }

  lemma LinkConverges(l: Link, origin: Database, peer: PeerId, now: int, source: CommitSource)
    requires LinkAt(l, origin, peer, now, |origin.graph.log|, source) && DatabaseInv(origin)
    ensures l.receiver.graph.derived == origin.graph.derived <==> Exact(origin)
  {
    SameOps(l.receiver.graph.log, origin.graph.log);
    if Exact(origin) { SameOperationsSameTables(l.receiver.graph, origin.graph); }
  }

  // ----- runs whose logs are always capped -----

  /** No deletion, or parents that stay in their space. */
  ghost predicate OrdinaryRun(steps: seq<Step>) { DeletesNothing(steps) || LocalRun(EMPTY_DATABASE, steps) }

  lemma NextKeepsCap(db: Database, step: Step)
    requires DatabaseInv(db) && Exact(db) && CappedLog(db.graph.log) && !step.DeleteStep?
    ensures CappedLog(Next(db, step).graph.log)
  {
    GraphMoves(db, step);
    match MoveOf(db, step)
    case Admitted(op, at, local) => AdmitKeepsCap(db.graph, op, at, local);
    case _ =>
  }

  lemma {:induction false} RunKeepsCap(db: Database, steps: seq<Step>)
    requires DatabaseInv(db) && Exact(db) && CappedLog(db.graph.log) && DeletesNothing(steps)
    ensures CappedLog(Run(db, steps).graph.log) && Exact(Run(db, steps))
    decreases |steps|
  {
    if steps != [] {
      assert steps[0] in steps;
      NextKeepsCap(db, steps[0]);
      NextKeepsInv(db, steps[0]);
      NextKeepsExact(db, steps[0]);
      forall s | s in steps[1..] ensures !s.DeleteStep? { assert s in steps; }
      RunKeepsCap(Next(db, steps[0]), steps[1..]);
    }
  }

  lemma OrdinaryIsCapped(steps: seq<Step>)
    requires OrdinaryRun(steps)
    ensures CappedLog(Run(EMPTY_DATABASE, steps).graph.log) && Exact(Run(EMPTY_DATABASE, steps))
  {
    if DeletesNothing(steps) {
      EmptyIsExact();
      RunKeepsCap(EMPTY_DATABASE, steps);
    } else {
      ReachableHistories(steps);
    }
  }

  lemma {:induction false} CappedPrefixes(log: seq<Entry>, k: nat)
    requires CappedLog(log) && k <= |log|
    ensures CappedLog(log[..k])
  {
    CappedPrefix(log, |log|);
    CappedPrefix(log, k);
    assert log[..|log|] == log;
  }

  /** Causal forwarding: after a run without deletions, or one with space-local parents, no round is ever refused; the
      receiver holds exactly the first `rounds * limit` operations and exactly the others stay due, so ceil(n / limit)
      rounds drain the outbox. */
  lemma CausalForwarding(steps: seq<Step>, receiver: Database, peer: PeerId, now: int, ticks: seq<Tick>, limit: nat,
                         source: CommitSource, later: int)
    requires OrdinaryRun(steps) && AllDue(Run(EMPTY_DATABASE, steps), peer, now)
    requires Unused(receiver) && SourceKnown(receiver.outbox, source)
    requires GoodTicks(ticks, now) && 1 <= limit <= MAX_OUTBOX_BATCH && LastTime(ticks, now) <= later
    ensures
      var sender := Run(EMPTY_DATABASE, steps);
      var end := Rounds(Link(sender, receiver), peer, ticks, limit, source);
      var moved := Forwarded(|ticks|, limit, |sender.graph.log|);
      && end.Ok? && end.value.sender.graph == sender.graph
      && Mirrors(end.value.receiver.graph.log, sender.graph.log, moved)
      && Due(end.value.sender.outbox, sender.graph.log, peer, later) == OpsOf(sender.graph.log[moved..])
  {
    var log := Run(EMPTY_DATABASE, steps).graph.log;
    OrdinaryIsCapped(steps);
    CappedPrefixes(log, Forwarded(|ticks|, limit, |log|));
    ForwardingIsExact(steps, receiver, peer, now, ticks, limit, source, later);
  }

  /** Once the rounds cover the log, the receiver has the sender's heads, edges, visibility and projections. */
  lemma ForwardingConverges(steps: seq<Step>, receiver: Database, peer: PeerId, now: int, ticks: seq<Tick>, limit: nat,
                            source: CommitSource)
    requires OrdinaryRun(steps) && AllDue(Run(EMPTY_DATABASE, steps), peer, now)
    requires Unused(receiver) && SourceKnown(receiver.outbox, source)
    requires GoodTicks(ticks, now) && 1 <= limit <= MAX_OUTBOX_BATCH
    requires |ticks| * limit >= |Run(EMPTY_DATABASE, steps).graph.log|
    ensures
      var sender := Run(EMPTY_DATABASE, steps);
      var end := Rounds(Link(sender, receiver), peer, ticks, limit, source);
      end.Ok? && end.value.receiver.graph.derived == sender.graph.derived
  {
    OrdinaryIsCapped(steps);
    DrainedReceiver(steps, receiver, peer, now, ticks, limit, source);
  }
}
