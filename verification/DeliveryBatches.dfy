/** A leased batch is exactly the oldest due operations, each once, in local-sequence order. */
module DeliveryBatches {
  import opened Operations
  import opened OperationGraph
  import opened GraphInvariants
  import opened EntityHistories
  import opened Outbox
  import opened ClientDatabase

  ghost predicate DistinctIds(log: seq<Entry>) {
    forall i, j | 0 <= i < j < |log| :: log[i].op.id != log[j].op.id
  }

  lemma LegalIsDistinct(log: seq<Entry>)
    requires LegalLog(log)
    ensures DistinctIds(log)
  {
    forall i, j | 0 <= i < j < |log| ensures log[i].op.id != log[j].op.id {
      LegalPrefix(log, j + 1);
      assert log[..j + 1][..j] == log[..j];
      assert log[..j][i] in log[..j];
      EntryIsStored(log[..j], log[i]);
    }
  }

  predicate RowIsDue(o: Outbox, peer: PeerId, id: OperationId, now: int) {
    peer in o.peers && o.peers[peer].enabled && (peer, id) in o.deliveries && IsDue(o.deliveries[(peer, id)], now)
  }

  /** Log positions of the due rows, from `from` on. */
  ghost function Positions(o: Outbox, log: seq<Entry>, peer: PeerId, now: int, from: nat): seq<nat>
    decreases |log| - from
  {
    if from >= |log| then []
    else
      var rest := Positions(o, log, peer, now, from + 1);
      if RowIsDue(o, peer, log[from].op.id, now) then [from] + rest else rest
  }

  ghost predicate Ascends(at: seq<nat>, from: nat, bound: nat) {
    && (forall i | 0 <= i < |at| :: from <= at[i] < bound)
    && (forall i, j | 0 <= i < j < |at| :: at[i] < at[j])
  }

  lemma {:induction false} PositionsAscend(o: Outbox, log: seq<Entry>, peer: PeerId, now: int, from: nat)
    ensures Ascends(Positions(o, log, peer, now, from), from, |log|)
    decreases |log| - from
  {
    if from < |log| { PositionsAscend(o, log, peer, now, from + 1); }
  }

  lemma {:induction false} PositionsAreDue(o: Outbox, log: seq<Entry>, peer: PeerId, now: int, from: nat, n: nat)
    requires n < |log|
    ensures n in Positions(o, log, peer, now, from) <==> from <= n && RowIsDue(o, peer, log[n].op.id, now)
    decreases |log| - from
  {
    if from < |log| {
      PositionsAreDue(o, log, peer, now, from + 1, n);
      var rest := Positions(o, log, peer, now, from + 1);
      assert n in [from] + rest <==> n == from || n in rest;
    }
  }

  lemma DueHead(o: Outbox, log: seq<Entry>, peer: PeerId, now: int, from: nat)
    requires from < |log|
    ensures Due(o, log[from..], peer, now) ==
            if RowIsDue(o, peer, log[from].op.id, now) then [log[from].op] + Due(o, log[from + 1..], peer, now)
            else Due(o, log[from + 1..], peer, now)
  {
    assert log[from..][1..] == log[from + 1..] && log[from..][0] == log[from];
  }

  lemma {:induction false} DueFrom(o: Outbox, log: seq<Entry>, peer: PeerId, now: int, from: nat, i: nat)
    requires from <= |log| && Ascends(Positions(o, log, peer, now, from), from, |log|)
    ensures |Due(o, log[from..], peer, now)| == |Positions(o, log, peer, now, from)|
    ensures i < |Positions(o, log, peer, now, from)| ==>
              Due(o, log[from..], peer, now)[i] == log[Positions(o, log, peer, now, from)[i]].op
    decreases |log| - from
  {
    if from < |log| {
      PositionsAscend(o, log, peer, now, from + 1);
      DueHead(o, log, peer, now, from);
      if RowIsDue(o, peer, log[from].op.id, now) {
        DueFrom(o, log, peer, now, from + 1, if i == 0 then 0 else i - 1);
      } else {
        DueFrom(o, log, peer, now, from + 1, i);
      }
    } else {
      assert log[from..] == [];
    }
  }

  /** The due rows are a subsequence of the log: positions ascend, and each holds the due operation. */
  lemma DuePositions(o: Outbox, log: seq<Entry>, peer: PeerId, now: int) returns (at: seq<nat>)
    ensures |at| == |Due(o, log, peer, now)| && Ascends(at, 0, |log|)
    ensures forall i | 0 <= i < |at| :: log[at[i]].op == Due(o, log, peer, now)[i]
    ensures forall n | 0 <= n < |log| :: n in at <==> RowIsDue(o, peer, log[n].op.id, now)
  {
    at := Positions(o, log, peer, now, 0);
    assert log[0..] == log;
    PositionsAscend(o, log, peer, now, 0);
    DueFrom(o, log, peer, now, 0, 0);
    forall i | 0 <= i < |at| ensures log[at[i]].op == Due(o, log, peer, now)[i] { DueFrom(o, log, peer, now, 0, i); }
    forall n | 0 <= n < |log| ensures n in at <==> RowIsDue(o, peer, log[n].op.id, now) {
      PositionsAreDue(o, log, peer, now, 0, n);
    }
  }

  lemma DueIsDistinct(o: Outbox, log: seq<Entry>, peer: PeerId, now: int)
    requires DistinctIds(log)
    ensures forall i, j | 0 <= i < j < |Due(o, log, peer, now)| ::
              Due(o, log, peer, now)[i].id != Due(o, log, peer, now)[j].id
  {
    var at := DuePositions(o, log, peer, now);
  }

  /** A batch shorter than the limit left no due row behind; a full one took only rows older than those it left. */
  lemma BatchIsOldestDue(o: Outbox, log: seq<Entry>, peer: PeerId, now: int, limit: nat, n: nat, m: nat)
    requires DistinctIds(log) && n < |log| && RowIsDue(o, peer, log[n].op.id, now)
    requires log[n].op !in Take(Due(o, log, peer, now), limit)
    requires m < |log| && log[m].op in Take(Due(o, log, peer, now), limit)
    ensures m < n && |Take(Due(o, log, peer, now), limit)| == limit
  {
    var due := Due(o, log, peer, now);
    var at := DuePositions(o, log, peer, now);
    var j :| 0 <= j < |at| && at[j] == n;
    var i :| 0 <= i < |Take(due, limit)| && Take(due, limit)[i] == log[m].op;
    assert due[i] == log[m].op && log[at[i]].op.id == log[m].op.id;
    assert forall x | 0 <= x < |Take(due, limit)| :: Take(due, limit)[x] == due[x];
  }
}
