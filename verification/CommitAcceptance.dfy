/** When a commit must succeed: a legal, capped operation whose resource lengths agree with those already known. */
module CommitAcceptance {
  import opened Wrappers
  import opened Operations
  import opened OperationGraph
  import opened GraphInvariants
  import opened EntityHistories
  import opened Outbox
  import opened MediaTransfers
  import opened ClientDatabase
  import opened StoreRuns

  // ----- resource lengths never disagree inside one store -----

  ghost predicate Knows(m: Media, op: Operation, n: nat) {
    forall i | 0 <= i < n && i < |Resources(op.body)| ::
      var r := Resources(op.body)[i];
      r.contentId in m.resources && m.resources[r.contentId].byteLength == r.byteLength
  }

  ghost predicate LengthsKept(m: Media, next: Media) {
    forall c | c in m.resources :: c in next.resources && next.resources[c].byteLength == m.resources[c].byteLength
  }

  /** Every stored operation's resources are known under the lengths it declares. */
  ghost predicate ResourcesKnown(db: Database) {
    forall id | id in Ops(db.graph.log) :: Knows(db.media, Ops(db.graph.log)[id], |Resources(Ops(db.graph.log)[id].body)|)
  }

  lemma {:induction false} DiscoverKnows(m: Media, op: Operation, at: int, from: nat)
    requires Discover(m, op, at, from).Ok? && Knows(m, op, from)
    ensures LengthsKept(m, Discover(m, op, at, from).value)
    ensures Knows(Discover(m, op, at, from).value, op, |Resources(op.body)|)
    decreases |Resources(op.body)| - from
  {
    if from < |Resources(op.body)| {
      var r := Resources(op.body)[from];
      var resources :=
        if r.contentId in m.resources then m.resources
        else m.resources[r.contentId := Resource(r.byteLength, false, false, at, None)];
      DiscoverKnows(m.(resources := resources, links := m.links + {ResourceLink(op.id, from, r.contentId)}), op, at, from + 1);
    }
  }

  lemma {:induction false} ApplyKeepsLengths(m: Media, o: Outbox, log: seq<Entry>, op: Operation, at: int,
                                             source: CommitSource, from: nat)
    requires ApplyResources(m, o, log, op, at, source, from).Ok?
    ensures LengthsKept(m, ApplyResources(m, o, log, op, at, source, from).value)
    ensures ApplyResources(m, o, log, op, at, source, from).value.resources.Keys == m.resources.Keys
    decreases |Resources(op.body)| - from
  {
    if from < |Resources(op.body)| {
      var next := ApplyResource(m, o, log, Resources(op.body)[from].contentId, at, source).value;
      assert next.resources.Keys == m.resources.Keys;
      ApplyKeepsLengths(next, o, log, op, at, source, from + 1);
    }
  }

  lemma MediaStepKeepsLengths(m: Media, o: Outbox, step: MediaStep)
    requires MediaNext(m, o, step).Ok?
    ensures LengthsKept(m, MediaNext(m, o, step).value)
  {
  }

  lemma CommitLearns(db: Database, op: Operation, at: int, source: CommitSource)
    requires Commit(db, op, at, source).Ok?
    ensures LengthsKept(db.media, Commit(db, op, at, source).value.media)
    ensures op.id !in Ops(db.graph.log) ==> Knows(Commit(db, op, at, source).value.media, op, |Resources(op.body)|)
  {
    var stored := db;
    if op.id !in Ops(db.graph.log) {
      stored := Insert(db, op, at, source.Local?).value;
      DiscoverKnows(db.media, op, at, 0);
    }
    var outbox := ApplySource(stored.outbox, op, at, source).value;
    ApplyKeepsLengths(stored.media, outbox, stored.graph.log, op, at, source, 0);
  }

  lemma StepKeepsLengths(db: Database, step: Step)
    ensures LengthsKept(db.media, Next(db, step).media)
  {
    if Apply(db, step).Ok? {
      match step
      case CommitStep(op, at, source) => CommitLearns(db, op, at, source);
      case MediaStep(mediaStep) => MediaStepKeepsLengths(db.media, db.outbox, mediaStep);
      case _ =>
    }
  }

  lemma StillKnows(m: Media, next: Media, op: Operation)
    requires LengthsKept(m, next) && Knows(m, op, |Resources(op.body)|)
    ensures Knows(next, op, |Resources(op.body)|)
  {
  }

  lemma NextKeepsKnown(db: Database, step: Step)
    requires DatabaseInv(db) && ResourcesKnown(db)
    ensures ResourcesKnown(Next(db, step))
  {
    var next := Next(db, step);
    StepKeepsLengths(db, step);
    MoveKeepsInv(db, step);
    forall id | id in Ops(next.graph.log)
      ensures Knows(next.media, Ops(next.graph.log)[id], |Resources(Ops(next.graph.log)[id].body)|)
    {
      if id in Ops(db.graph.log) && Ops(next.graph.log)[id] == Ops(db.graph.log)[id] {
        StillKnows(db.media, next.media, Ops(db.graph.log)[id]);
      } else {
        GraphMoves(db, step);
        CommitLearns(db, step.op, step.at, step.source);
      }
    }
  }

  lemma {:induction false} RunKeepsKnown(db: Database, steps: seq<Step>)
    requires DatabaseInv(db) && ResourcesKnown(db)
    ensures ResourcesKnown(Run(db, steps))
    decreases |steps|
  {
    if steps != [] {
      NextKeepsKnown(db, steps[0]);
      NextKeepsInv(db, steps[0]);
      RunKeepsKnown(Next(db, steps[0]), steps[1..]);
    }
  }

  lemma ReachableKnown(steps: seq<Step>)
    ensures ResourcesKnown(Run(EMPTY_DATABASE, steps))
  {
    EmptyIsExact();
    assert ResourcesKnown(EMPTY_DATABASE);
    RunKeepsKnown(EMPTY_DATABASE, steps);
  }

  // ----- one operation -----

  /** The lengths known on one side are among those known on the other. */
  ghost predicate LengthsWithin(m: Media, all: Media) { LengthsKept(m, all) }

  lemma {:induction false} DiscoverSucceeds(m: Media, all: Media, op: Operation, at: int, from: nat)
    requires LengthsWithin(m, all) && Knows(all, op, |Resources(op.body)|)
    ensures Discover(m, op, at, from).Ok? && LengthsWithin(Discover(m, op, at, from).value, all)
    decreases |Resources(op.body)| - from
  {
    if from < |Resources(op.body)| {
      var r := Resources(op.body)[from];
      var resources :=
        if r.contentId in m.resources then m.resources
        else m.resources[r.contentId := Resource(r.byteLength, false, false, at, None)];
      DiscoverSucceeds(m.(resources := resources, links := m.links + {ResourceLink(op.id, from, r.contentId)}),
                       all, op, at, from + 1);
    }
  }

  ghost predicate SourceKnown(o: Outbox, source: CommitSource) { source.FromPeer? ==> source.peer in o.peers }

  lemma {:induction false} ApplySucceeds(m: Media, o: Outbox, log: seq<Entry>, op: Operation, at: int,
                                         source: CommitSource, from: nat)
    requires Knows(m, op, |Resources(op.body)|) && SourceKnown(o, source)
    ensures ApplyResources(m, o, log, op, at, source, from).Ok?
    decreases |Resources(op.body)| - from
  {
    if from < |Resources(op.body)| {
      var next := ApplyResource(m, o, log, Resources(op.body)[from].contentId, at, source);
      assert next.Ok? && LengthsKept(m, next.value);
      StillKnows(m, next.value, op);
      ApplySucceeds(next.value, o, log, op, at, source, from + 1);
    }
  }

  lemma AnnounceSucceeds(db: Database, op: Operation, at: int, source: CommitSource)
    requires Knows(db.media, op, |Resources(op.body)|) && SourceKnown(db.outbox, source)
    ensures Announce(db, op, at, source).Ok?
    ensures LengthsKept(db.media, Announce(db, op, at, source).value.media)
    ensures Announce(db, op, at, source).value.media.resources.Keys == db.media.resources.Keys
    ensures Announce(db, op, at, source).value.outbox.peers == db.outbox.peers
  {
    var outbox := ApplySource(db.outbox, op, at, source).value;
    ApplySucceeds(db.media, outbox, db.graph.log, op, at, source, 0);
    ApplyKeepsLengths(db.media, outbox, db.graph.log, op, at, source, 0);
  }

  lemma WithinAfter(m: Media, next: Media, all: Media)
    requires LengthsWithin(m, all) && LengthsKept(m, next) && next.resources.Keys == m.resources.Keys
    ensures LengthsWithin(next, all)
  {
    forall c | c in next.resources
      ensures c in all.resources && all.resources[c].byteLength == next.resources[c].byteLength
    {
      assert c in m.resources;
    }
  }

  /** A new operation that is admitted to the graph and whose lengths agree is committed. */
  lemma NewOperationIsCommitted(receiver: Database, all: Media, op: Operation, at: int, source: CommitSource)
    requires Verified(op) && op.id !in Ops(receiver.graph.log) && Admit(receiver.graph, op, at, source.Local?).Ok?
    requires 0 <= at && SourceKnown(receiver.outbox, source)
    requires LengthsWithin(receiver.media, all) && Knows(all, op, |Resources(op.body)|)
    ensures Commit(receiver, op, at, source).Ok?
    ensures LengthsWithin(Commit(receiver, op, at, source).value.media, all)
    ensures SourceKnown(Commit(receiver, op, at, source).value.outbox, source)
  {
    DiscoverSucceeds(receiver.media, all, op, at, 0);
    DiscoverKnows(receiver.media, op, at, 0);
    var stored := Insert(receiver, op, at, source.Local?).value;
    AnnounceSucceeds(stored, op, at, source);
    WithinAfter(stored.media, Announce(stored, op, at, source).value.media, all);
  }

  lemma LegalIsAdmitted(g: Graph, op: Operation, at: int, local: bool)
    requires Inv(g) && HeadsExact(Ops(g.log), g.derived.heads)
    requires LegalNext(Ops(g.log), op) && WithinCap(Ops(g.log), op)
    ensures Verified(op) && op.id !in Ops(g.log) && Admit(g, op, at, local).Ok?
  {
    AdmissionIsExact(g, op, at, local);
  }

  lemma CommitAdmits(db: Database, op: Operation, at: int, source: CommitSource)
    requires op.id !in Ops(db.graph.log) && Commit(db, op, at, source).Ok?
    ensures Admit(db.graph, op, at, source.Local?) == Ok(Commit(db, op, at, source).value.graph)
  {
  }

  /** Committing a new local or peer operation queues every one of its resources for every other peer that is pushed to
      and has the operation's space configured. */
  lemma CommitQueuesUploads(db: Database, op: Operation, at: int, source: CommitSource, i: nat, peer: PeerId)
    requires op.id !in Ops(db.graph.log) && Commit(db, op, at, source).Ok? && !source.Remote? && source != FromPeer(peer)
    requires i < |Resources(op.body)| && Pushes(db.outbox, peer) && (peer, op.space) in db.outbox.peerSpaces
    ensures TransferKey(peer, Resources(op.body)[i].contentId, Upload) in Commit(db, op, at, source).value.media.transfers
  {
    var stored := Insert(db, op, at, source.Local?).value;
    var outbox := ApplySource(stored.outbox, op, at, source).value;
    DiscoverLinks(db.media, op, at, 0, i);
    AdmitAppends(db.graph, op, at, source.Local?);
    OpsAppend(db.graph.log, Entry(db.graph.lastSequence + 1, op, at, source.Local?));
    ApplyQueuesUploads(stored.media, outbox, stored.graph.log, op, at, source, 0, i, peer);
  }
}
