/** The sync worker's download: ask for the offset, fetch the next range from a peer, append it, settle the transfer. */
module Downloads {
  import opened Wrappers
  import opened Operations
  import opened ClientContent
  import BlobMachine
  import Outbox
  import Media = MediaTransfers
  import Db = ClientDatabase

  type Bytes = BlobMachine.Bytes

  datatype Answer = Served(bytes: Bytes) | Busy | Denied

  /** What a peer answers to the range request `[from, to)`. */
  type Peer = (nat, nat) -> Answer

  datatype DownloadError =
    | InvalidChunkSize
    | PeerBusy
    | PeerDenied
    | RangeExceeded
    | RangeCutShort
    | ContentFailure(error: ContentError)

  /** The worker retries these and rejects the transfer on all others. */
  predicate Retryable(e: DownloadError) { e.PeerBusy? || e.RangeCutShort? }

  /** One chunk: at the full offset the client is done and appends nothing. */
  function DownloadChunk(hash: Hash, f: Files, d: Descriptor, maximum: nat, peer: Peer)
    : (Files, Result<AppendResult, DownloadError>)
  {
    if !(1 <= maximum <= MAX_DOWNLOAD_CHUNK_BYTES) then (f, Err(InvalidChunkSize))
    else
      match PartialOffset(hash, f, d)
      case Err(e) => (f, Err(ContentFailure(e)))
      case Ok(at) =>
        if at == d.length then (f, Ok(AppendResult(at, true)))
        else
          var end := SliceEnd(at, maximum, d.length);
          match peer(at, end)
          case Busy => (f, Err(PeerBusy))
          case Denied => (f, Err(PeerDenied))
          case Served(bytes) =>
            if |bytes| > end - at then (f, Err(RangeExceeded))
            else if |bytes| < end - at then (f, Err(RangeCutShort))
            else
              var appended := Append(hash, f, d, at, bytes);
              (appended.0, if appended.1.Ok? then Ok(appended.1.value) else Err(ContentFailure(appended.1.error)))
  }

  method DownloadContentChunk(store: ContentStore, d: Descriptor, maximum: nat, peer: Peer)
    returns (r: Result<AppendResult, DownloadError>)
    requires store.Valid()
    modifies store
    ensures store.Valid() && (store.Stored(), r) == DownloadChunk(store.hash, old(store.Stored()), d, maximum, peer)
  {
    if maximum == 0 || maximum > MAX_DOWNLOAD_CHUNK_BYTES { return Err(InvalidChunkSize); }
    var offset := store.FindOffset(d);
    if offset.Err? { return Err(ContentFailure(offset.error)); }
    if offset.value == d.length { return Ok(AppendResult(offset.value, true)); }
    var end := if offset.value + maximum <= d.length then offset.value + maximum else d.length;
    var answer := peer(offset.value, end);
    if answer.Busy? { return Err(PeerBusy); }
    if answer.Denied? { return Err(PeerDenied); }
    if |answer.bytes| > end - offset.value { return Err(RangeExceeded); }
    if |answer.bytes| != end - offset.value { return Err(RangeCutShort); }
    var appended := store.AppendDownloadChunk(d, offset.value, answer.bytes);
    if appended.Err? { return Err(ContentFailure(appended.error)); }
    r := Ok(appended.value);
  }

  // ----- what a report of completion is worth -----

  /** Every byte is in the partial file, but no blob was published: a crash came between the two, or there are no bytes. */
  predicate Unpublished(f: Files, d: Descriptor) { d.id !in f.blobs && |PartialOf(f, d.id)| == d.length }

  predicate Published(hash: Hash, f: Files, d: Descriptor) { Blob(hash, f, d).Ok? && Blob(hash, f, d).value.Some? }

  /** Whatever the peer answers: a reported completion comes with a published blob if and only if the content was not
      unpublished before the call, and a reported offset short of it is that of the partial file. */
  lemma CompletionIsPublication(hash: Hash, f: Files, d: Descriptor, maximum: nat, peer: Peer)
    ensures
      var (next, r) := DownloadChunk(hash, f, d, maximum, peer);
      && (r.Ok? && r.value.complete ==> r.value.offset == d.length && (Published(hash, next, d) <==> !Unpublished(f, d)))
      && (r.Ok? && !r.value.complete ==>
            && Blob(hash, next, d) == Ok(None) && r.value.offset == |PartialOf(next, d.id)| < d.length
            && |PartialOf(f, d.id)| < r.value.offset)
  {
  }

  function Rounds(hash: Hash, f: Files, d: Descriptor, maximum: nat, peers: seq<Peer>): Files
    decreases |peers|
  {
    if peers == [] then f else Rounds(hash, DownloadChunk(hash, f, d, maximum, peers[0]).0, d, maximum, peers[1..])
  }

  /** Unpublished content stays unpublished whatever the peers answer, and every round reports it complete. */
  lemma {:induction false} UnpublishedForever(hash: Hash, f: Files, d: Descriptor, maximum: nat, peers: seq<Peer>, peer: Peer)
    requires Unpublished(f, d) && 1 <= maximum <= MAX_DOWNLOAD_CHUNK_BYTES
    ensures Rounds(hash, f, d, maximum, peers) == f && Blob(hash, f, d) == Ok(None)
    ensures DownloadChunk(hash, f, d, maximum, peer) == (f, Ok(AppendResult(d.length, true)))
    decreases |peers|
  {
    if peers != [] { UnpublishedForever(hash, f, d, maximum, peers[1..], peers[0]); }
  }

  // ----- true answers -----

  ghost predicate Truthful(peer: Peer, truth: Bytes) {
    forall from: nat, to: nat | from <= to <= |truth| :: peer(from, to) == Served(truth[from..to])
  }

  ghost predicate AllTruthful(peers: seq<Peer>, truth: Bytes) { forall i | 0 <= i < |peers| :: Truthful(peers[i], truth) }

  lemma RestIsTruthful(peers: seq<Peer>, truth: Bytes)
    requires AllTruthful(peers, truth) && peers != []
    ensures Truthful(peers[0], truth) && AllTruthful(peers[1..], truth)
  {
  }

  /** Short of the full offset, a round with a truthful peer feeds the next slice. */
  lemma ChunkFeeds(hash: Hash, f: Files, d: Descriptor, truth: Bytes, maximum: nat, peer: Peer)
    requires |truth| == d.length && Truthful(peer, truth) && 1 <= maximum <= MAX_DOWNLOAD_CHUNK_BYTES
    requires d.id !in f.blobs && |PartialOf(f, d.id)| < d.length
    ensures
      var at := |PartialOf(f, d.id)|;
      var (next, r) := DownloadChunk(hash, f, d, maximum, peer);
      var appended := Append(hash, f, d, at, truth[at..SliceEnd(at, maximum, d.length)]);
      && next == appended.0 == Feed(hash, f, d, truth, maximum)
      && r == if appended.1.Ok? then Ok(appended.1.value) else Err(ContentFailure(appended.1.error))
  {
    var at := |PartialOf(f, d.id)|;
    assert peer(at, SliceEnd(at, maximum, d.length)) == Served(truth[at..SliceEnd(at, maximum, d.length)]);
  }

  lemma RoundProgresses(hash: Hash, f: Files, d: Descriptor, truth: Bytes, maximum: nat, peer: Peer)
    requires IsTruth(hash, d, truth) && Downloadable(hash, f, d) && 1 <= maximum <= MAX_DOWNLOAD_CHUNK_BYTES
    requires Truthful(peer, truth) && !Unpublished(f, d)
    ensures
      var next := DownloadChunk(hash, f, d, maximum, peer).0;
      && Downloadable(hash, next, d) && !Unpublished(next, d)
      && (if d.id in f.blobs then next == f else Left(next, d, truth) < Left(f, d, truth))
  {
    if d.id !in f.blobs {
      ChunkFeeds(hash, f, d, truth, maximum, peer);
      FeedProgresses(hash, f, d, truth, maximum);
      FeedIs(hash, f, d, truth, maximum);
    }
  }

  lemma {:induction false} PublishedInTheEnd(hash: Hash, f: Files, d: Descriptor, truth: Bytes, maximum: nat, peers: seq<Peer>)
    requires IsTruth(hash, d, truth) && Downloadable(hash, f, d) && 1 <= maximum <= MAX_DOWNLOAD_CHUNK_BYTES
    requires AllTruthful(peers, truth) && |peers| >= Left(f, d, truth) && !Unpublished(f, d)
    ensures Blob(hash, Rounds(hash, f, d, maximum, peers), d) == Ok(Some(truth))
    decreases |peers|
  {
    if peers != [] {
      RestIsTruthful(peers, truth);
      RoundProgresses(hash, f, d, truth, maximum, peers[0]);
      PublishedInTheEnd(hash, DownloadChunk(hash, f, d, maximum, peers[0]).0, d, truth, maximum, peers[1..]);
    }
  }

  /** The client's rounds with truthful peers publish exactly the true bytes if and only if the content was not
      unpublished; otherwise they change nothing. */
  lemma ClientDownloadsExactly(hash: Hash, f: Files, d: Descriptor, truth: Bytes, maximum: nat, peers: seq<Peer>)
    requires IsTruth(hash, d, truth) && Downloadable(hash, f, d) && 1 <= maximum <= MAX_DOWNLOAD_CHUNK_BYTES
    requires AllTruthful(peers, truth) && |peers| >= Left(f, d, truth)
    ensures Blob(hash, Rounds(hash, f, d, maximum, peers), d) == Ok(Some(truth)) <==> !Unpublished(f, d)
    ensures Unpublished(f, d) ==> Rounds(hash, f, d, maximum, peers) == f
  {
    if Unpublished(f, d) {
      UnpublishedForever(hash, f, d, maximum, peers, (_, _) => Busy);
    } else {
      PublishedInTheEnd(hash, f, d, truth, maximum, peers);
    }
  }

  // ----- schedules -----

  /** A crash after the last byte became durable and before the blob was published. */
  predicate Fills(step: ContentStep) { step.TornAppend? && step.offset + |step.tail| == step.d.length }

  /** Every partial file beside no blob lacks bytes. */
  ghost predicate Unfilled(f: Files, lengths: ContentId -> nat) {
    forall id | id in f.partial && id !in f.blobs :: |f.partial[id]| < lengths(id)
  }

  lemma NextKeepsUnfilled(hash: Hash, f: Files, step: ContentStep, lengths: ContentId -> nat)
    requires Fitting(f, lengths) && Unfilled(f, lengths) && StepAgrees(step, lengths, hash) && !Fills(step)
    ensures Unfilled(Next(hash, f, step), lengths)
  {
  }

  lemma {:induction false} RunKeepsUnfilled(hash: Hash, f: Files, steps: seq<ContentStep>, lengths: ContentId -> nat)
    requires Fitting(f, lengths) && Unfilled(f, lengths)
    requires forall s | s in steps :: StepAgrees(s, lengths, hash) && !Fills(s)
    ensures Unfilled(Run(hash, f, steps), lengths)
    decreases |steps|
  {
    if steps != [] {
      assert steps[0] in steps;
      NextKeepsFitting(hash, f, steps[0], lengths);
      NextKeepsUnfilled(hash, f, steps[0], lengths);
      forall s | s in steps[1..] ensures StepAgrees(s, lengths, hash) && !Fills(s) { assert s in steps; }
      RunKeepsUnfilled(hash, Next(hash, f, steps[0]), steps[1..], lengths);
    }
  }

  /** After any schedule whose descriptors agree on lengths, the client's rounds publish the true bytes if and only if the
      schedule did not leave the content unpublished. Nonempty content is left so only by a crash before publication. */
  lemma AnyScheduleThenClient(hash: Hash, steps: seq<ContentStep>, lengths: ContentId -> nat, d: Descriptor, truth: Bytes,
                              maximum: nat, peers: seq<Peer>)
    requires forall s | s in steps :: StepAgrees(s, lengths, hash)
    requires d.length == lengths(d.id) && IsTruth(hash, d, truth) && 1 <= maximum <= MAX_DOWNLOAD_CHUNK_BYTES
    requires AllTruthful(peers, truth) && |peers| >= 2 * d.length + 2
    ensures
      var f := Run(hash, NO_FILES, steps);
      && (Blob(hash, Rounds(hash, f, d, maximum, peers), d) == Ok(Some(truth)) <==> !Unpublished(f, d))
      && (d.length > 0 && (forall s | s in steps :: !Fills(s)) ==> !Unpublished(f, d))
  {
    RunKeepsVerified(hash, NO_FILES, steps);
    RunKeepsFitting(hash, NO_FILES, steps, lengths);
    ClientDownloadsExactly(hash, Run(hash, NO_FILES, steps), d, truth, maximum, peers);
    if forall s | s in steps :: !Fills(s) { RunKeepsUnfilled(hash, NO_FILES, steps, lengths); }
  }

  /** Counterexample: a crash after the only chunk became durable leaves true bytes that the client never publishes. */
  lemma CrashLeavesUnpublished(hash: Hash, truth: Bytes, maximum: nat, peers: seq<Peer>, peer: Peer)
    requires 0 < |truth| <= MAX_DOWNLOAD_CHUNK_BYTES && 1 <= maximum <= MAX_DOWNLOAD_CHUNK_BYTES
    ensures
      var d := Descriptor(hash(truth), |truth|);
      var f := Run(hash, NO_FILES, [TornAppend(d, 0, truth, truth)]);
      && Downloadable(hash, f, d) && PartialOf(f, d.id) == truth
      && Blob(hash, Rounds(hash, f, d, maximum, peers), d) == Ok(None)
      && DownloadChunk(hash, f, d, maximum, peer).1 == Ok(AppendResult(d.length, true))
  {
    var d := Descriptor(hash(truth), |truth|);
    var step := TornAppend(d, 0, truth, truth);
    var f := Next(hash, NO_FILES, step);
    assert [step][1..] == [] && Run(hash, NO_FILES, [step]) == f;
    assert [] + truth == truth && f == Extend(NO_FILES, d.id, truth);
    UnpublishedForever(hash, f, d, maximum, peers, peer);
  }

  /** Counterexample: without any crash, the client never publishes empty content, though one empty chunk would. */
  lemma EmptyContentIsUnpublished(hash: Hash, maximum: nat, peers: seq<Peer>, peer: Peer)
    requires 1 <= maximum <= MAX_DOWNLOAD_CHUNK_BYTES
    ensures
      var d := Descriptor(hash([]), 0);
      && Blob(hash, Rounds(hash, NO_FILES, d, maximum, peers), d) == Ok(None)
      && DownloadChunk(hash, NO_FILES, d, maximum, peer).1 == Ok(AppendResult(0, true))
      && Blob(hash, Append(hash, NO_FILES, d, 0, []).0, d) == Ok(Some([]))
  {
    var d := Descriptor(hash([]), 0);
    UnpublishedForever(hash, NO_FILES, d, maximum, peers, peer);
    assert Extend(NO_FILES, d.id, []).partial[d.id] == [];
  }

  // ----- the worker settles the transfer -----

  datatype Verdict = Unsettled | Completed | Rejected

  /** The worker goes on after a chunk or a retryable failure, and settles on a completion or any other failure. */
  function Work(hash: Hash, f: Files, d: Descriptor, maximum: nat, peers: seq<Peer>): (Files, Verdict)
    decreases |peers|
  {
    if peers == [] then (f, Unsettled)
    else
      var (next, r) := DownloadChunk(hash, f, d, maximum, peers[0]);
      if r.Ok? && r.value.complete then (next, Completed)
      else if r.Err? && !Retryable(r.error) then (next, Rejected)
      else Work(hash, next, d, maximum, peers[1..])
  }

  /** What one truthful chunk does to a partial file that lacks bytes: it grows, is published, or is dropped. */
  lemma ChunkIs(hash: Hash, f: Files, d: Descriptor, truth: Bytes, maximum: nat, peer: Peer)
    requires IsTruth(hash, d, truth) && Truthful(peer, truth) && 1 <= maximum <= MAX_DOWNLOAD_CHUNK_BYTES
    requires d.id !in f.blobs && |PartialOf(f, d.id)| < d.length
    ensures
      var (next, r) := DownloadChunk(hash, f, d, maximum, peer);
      var p, q := PartialOf(f, d.id), PartialOf(next, d.id);
      if |p| + maximum < d.length then
        && r.Ok? && !r.value.complete && d.id !in next.blobs && |p| < |q| < d.length
        && (OnTrack(next, d, truth) <==> OnTrack(f, d, truth))
      else if OnTrack(f, d, truth) then r.Ok? && r.value.complete && Blob(hash, next, d) == Ok(Some(truth))
      else r.Err? && !Retryable(r.error) && Blob(hash, next, d) == Ok(None)
  {
    var p := PartialOf(f, d.id);
    var end := SliceEnd(|p|, maximum, d.length);
    ChunkFeeds(hash, f, d, truth, maximum, peer);
    OnTrackExtends(p, truth, end);
    assert truth[..d.length] == truth;
  }

  lemma {:induction false} WorkOnPartial(hash: Hash, f: Files, d: Descriptor, truth: Bytes, maximum: nat, peers: seq<Peer>)
    requires IsTruth(hash, d, truth) && AllTruthful(peers, truth) && 1 <= maximum <= MAX_DOWNLOAD_CHUNK_BYTES
    requires d.id !in f.blobs && |PartialOf(f, d.id)| < d.length && |peers| >= d.length - |PartialOf(f, d.id)|
    ensures
      var (next, verdict) := Work(hash, f, d, maximum, peers);
      if OnTrack(f, d, truth) then verdict == Completed && Blob(hash, next, d) == Ok(Some(truth))
      else verdict == Rejected && Blob(hash, next, d) == Ok(None)
    decreases |peers|
  {
    RestIsTruthful(peers, truth);
    ChunkIs(hash, f, d, truth, maximum, peers[0]);
    if |PartialOf(f, d.id)| + maximum < d.length {
      WorkOnPartial(hash, DownloadChunk(hash, f, d, maximum, peers[0]).0, d, truth, maximum, peers[1..]);
    }
  }

  /** With truthful peers the worker always settles, and exactly so: it publishes the true bytes if the blob is there or
      the partial file is a proper prefix of them; completes without a blob if the content is unpublished; and rejects if
      the partial file lacks bytes and holds wrong ones, is too long, or a blob of another length is there. */
  lemma WorkSettlesExactly(hash: Hash, f: Files, d: Descriptor, truth: Bytes, maximum: nat, peers: seq<Peer>)
    requires IsTruth(hash, d, truth) && AllTruthful(peers, truth) && 1 <= maximum <= MAX_DOWNLOAD_CHUNK_BYTES
    requires BlobsVerified(hash, f) && |peers| > d.length
    ensures
      var (next, verdict) := Work(hash, f, d, maximum, peers);
      && verdict != Unsettled
      && (verdict == Completed <==> Downloadable(hash, f, d) && (d.id in f.blobs || Unpublished(f, d) || OnTrack(f, d, truth)))
      && (Blob(hash, next, d) == Ok(Some(truth)) <==> verdict == Completed && !Unpublished(f, d))
  {
    if d.id !in f.blobs && |PartialOf(f, d.id)| < d.length { WorkOnPartial(hash, f, d, truth, maximum, peers); }
  }

  /** Counterexample: after one wrong byte from an earlier peer, the worker rejects a transfer that feeding completes. */
  lemma WrongByteIsRejected(hash: Hash, maximum: nat, peers: seq<Peer>, n: nat)
    requires IsTruth(hash, Descriptor(hash([1, 2]), 2), [1, 2]) && AllTruthful(peers, [1, 2]) && |peers| > 2 && n >= 6
    requires 1 <= maximum <= MAX_DOWNLOAD_CHUNK_BYTES
    ensures
      var d := Descriptor(hash([1, 2]), 2);
      var f := Run(hash, NO_FILES, [AppendStep(d, 0, [9])]);
      && Work(hash, f, d, maximum, peers).1 == Rejected
      && Blob(hash, Feeds(hash, f, d, [1, 2], maximum, n), d) == Ok(Some([1, 2]))
  {
    var d := Descriptor(hash([1, 2]), 2);
    var step := AppendStep(d, 0, [9]);
    var f := Next(hash, NO_FILES, step);
    assert [step][1..] == [] && Run(hash, NO_FILES, [step]) == f;
    assert f == Extend(NO_FILES, d.id, [9]) && PartialOf(f, d.id) == [9];
    assert [9][0] != [1, 2][..1][0];
    WorkOnPartial(hash, f, d, [1, 2], maximum, peers);
    DownloadCompletes(hash, f, d, [1, 2], maximum, n);
  }

  // ----- what the store is told -----

  /** The transactions of a completing round: record the offset, then complete the transfer. */
  function CompletionSteps(peer: PeerId, content: ContentId, lease: Outbox.LeaseId, offset: nat, at: int): seq<Db.Step> {
    var k := Media.TransferKey(peer, content, Media.Download);
    [Db.MediaStep(Db.RecordProgress(k, lease, offset, None)), Db.MediaStep(Db.FinishMedia(k, lease, Outbox.Acknowledge, at, None))]
  }

  lemma CompletionIs(m: Media.Media, k: Media.TransferKey, lease: Outbox.LeaseId, offset: nat, at: int)
    requires Media.HoldsTransfer(m, k, lease) && k.content in m.resources && k.direction.Download? && 0 <= at
    requires offset <= Outbox.I64_MAX && offset <= m.resources[k.content].byteLength
    ensures
      var told := Media.Progress(m, k, lease, offset, None);
      && told.Ok?
      && (var done := Media.FinishTransfer(told.value, k, lease, Outbox.Acknowledge, at, None);
          done.Ok? && k.content in done.value.resources && done.value.resources[k.content].locallyAvailable)
  {
  }

  /** The store takes the holder's word: after a reported completion it holds the bytes to be local, and they are there if
      and only if the content was not unpublished before the round. */
  lemma LocalMeansPublishedExactly(hash: Hash, f: Files, db: Db.Database, d: Descriptor, maximum: nat, serving: Peer,
                                   peer: PeerId, lease: Outbox.LeaseId, at: int)
    requires DownloadChunk(hash, f, d, maximum, serving).1 == Ok(AppendResult(d.length, true)) && 0 <= at
    requires Media.HoldsTransfer(db.media, Media.TransferKey(peer, d.id, Media.Download), lease)
    requires d.id in db.media.resources && db.media.resources[d.id].byteLength == d.length <= Outbox.I64_MAX
    ensures
      var files := DownloadChunk(hash, f, d, maximum, serving).0;
      var after := Db.Run(db, CompletionSteps(peer, d.id, lease, d.length, at));
      && d.id in after.media.resources && after.media.resources[d.id].locallyAvailable
      && (Published(hash, files, d) <==> !Unpublished(f, d))
  {
    CompletionIsPublication(hash, f, d, maximum, serving);
    var k := Media.TransferKey(peer, d.id, Media.Download);
    CompletionIs(db.media, k, lease, d.length, at);
    RunOfTwo(db, CompletionSteps(peer, d.id, lease, d.length, at));
  }

  lemma RunOfTwo(db: Db.Database, steps: seq<Db.Step>)
    requires |steps| == 2
    ensures Db.Run(db, steps) == Db.Next(Db.Next(db, steps[0]), steps[1])
  {
    var once := Db.Next(db, steps[0]);
    assert Db.Run(db, steps) == Db.Run(once, steps[1..]);
    assert steps[1..][0] == steps[1] && steps[1..][1..] == [];
    assert Db.Run(once, steps[1..]) == Db.Run(Db.Next(once, steps[1]), []);
  }
}
