/** Local storage for downloaded and imported media: partial files, published blobs, and crashes between the two. */
module ClientContent {
  import opened Wrappers
  import opened Operations
  import opened BlobMachine

  const MAX_DOWNLOAD_CHUNK_BYTES: nat := 4 * 1_024 * 1_024

  type Hash = Bytes -> ContentId

  datatype Descriptor = Descriptor(id: ContentId, length: nat)

  datatype ContentError =
    | InvalidDescriptor
    | LengthOverflow(limit: nat)
    | ContentTooLarge(size: nat)
    | LengthMismatch(declared: nat, found: nat)
    | DigestMismatch(wanted: ContentId, got: ContentId)
    | OffsetMismatch(expected: nat, supplied: nat)
    | ChunkTooLarge
    | NotFound

  datatype AppendResult = AppendResult(offset: nat, complete: bool)

  /** `temps` are import files, named by a nonce; a crash may leave some behind. */
  datatype Files = Files(partial: map<ContentId, Bytes>, blobs: map<ContentId, Bytes>, temps: map<nat, Bytes>)

  const NO_FILES: Files := Files(map[], map[], map[])

  // ----- reading -----

  function Verify(hash: Hash, bytes: Bytes, d: Descriptor): Option<ContentError> {
    if |bytes| != d.length then Some(LengthMismatch(d.length, |bytes|))
    else if hash(bytes) != d.id then Some(DigestMismatch(d.id, hash(bytes)))
    else None
  }

  function Blob(hash: Hash, f: Files, d: Descriptor): Result<Option<Bytes>, ContentError> {
    if d.id !in f.blobs then Ok(None)
    else
      var wrong := Verify(hash, f.blobs[d.id], d);
      if wrong.Some? then Err(wrong.value) else Ok(Some(f.blobs[d.id]))
  }

  function PartialOf(f: Files, id: ContentId): Bytes { if id in f.partial then f.partial[id] else [] }

  function PartialOffset(hash: Hash, f: Files, d: Descriptor): Result<nat, ContentError> {
    match Blob(hash, f, d)
    case Err(e) => Err(e)
    case Ok(Some(_)) => Ok(d.length)
    case Ok(None) => if |PartialOf(f, d.id)| > d.length then Err(LengthOverflow(d.length)) else Ok(|PartialOf(f, d.id)|)
  }

  function ReadRange(hash: Hash, f: Files, d: Descriptor, offset: nat, maximum: nat): Result<Bytes, ContentError> {
    match Blob(hash, f, d)
    case Err(e) => Err(e)
    case Ok(None) => Err(NotFound)
    case Ok(Some(bytes)) =>
      if offset > d.length then Err(OffsetMismatch(d.length, offset))
      else
        var length := if d.length - offset <= maximum then d.length - offset else maximum;
        Ok(bytes[offset..offset + length])
  }

  // ----- publishing and appending -----

  /** Hard-links the bytes under their digest; an existing blob is verified instead. */
  function Link(hash: Hash, f: Files, d: Descriptor, bytes: Bytes): Result<Files, ContentError> {
    if d.id !in f.blobs then Ok(f.(blobs := f.blobs[d.id := bytes]))
    else
      var wrong := Verify(hash, f.blobs[d.id], d);
      if wrong.Some? then Err(wrong.value) else Ok(f)
  }

  /** What a chunk is refused for before it is written. */
  function AppendRefusal(hash: Hash, f: Files, d: Descriptor, offset: nat, bytes: Bytes): Option<ContentError> {
    if |bytes| > MAX_DOWNLOAD_CHUNK_BYTES then Some(ChunkTooLarge)
    else
      match PartialOffset(hash, f, d)
      case Err(e) => Some(e)
      case Ok(current) =>
        if current != offset then Some(OffsetMismatch(current, offset))
        else if current + |bytes| > d.length then Some(LengthOverflow(d.length))
        else None
  }

  function Extend(f: Files, id: ContentId, bytes: Bytes): Files { f.(partial := f.partial[id := PartialOf(f, id) + bytes]) }

  function Drop(f: Files, id: ContentId): Files { f.(partial := f.partial - {id}) }

  /** Appends at exactly the durable offset; the last chunk publishes, or removes a partial file whose digest is wrong. */
  function Append(hash: Hash, f: Files, d: Descriptor, offset: nat, bytes: Bytes): (Files, Result<AppendResult, ContentError>) {
    if |bytes| > MAX_DOWNLOAD_CHUNK_BYTES then (f, Err(ChunkTooLarge))
    else if Blob(hash, f, d).Ok? && Blob(hash, f, d).value.Some? then (f, Ok(AppendResult(d.length, true)))
    else if AppendRefusal(hash, f, d, offset, bytes).Some? then (f, Err(AppendRefusal(hash, f, d, offset, bytes).value))
    else
      var written := Extend(f, d.id, bytes);
      if offset + |bytes| != d.length then (written, Ok(AppendResult(offset + |bytes|, false)))
      else
        var wrong := Verify(hash, written.partial[d.id], d);
        if wrong.Some? then (Drop(written, d.id), Err(wrong.value))
        else
          match Link(hash, written, d, written.partial[d.id])
          case Err(e) => (written, Err(e))
          case Ok(linked) => (Drop(linked, d.id), Ok(AppendResult(d.length, true)))
  }

  // ----- importing -----

  function Concat(buffers: seq<Bytes>): Bytes {
    if buffers == [] then [] else Concat(buffers[..|buffers| - 1]) + buffers[|buffers| - 1]
  }

  /** Imports a stream against a declared descriptor. */
  function Import(hash: Hash, f: Files, d: Descriptor, source: Bytes): (Files, Result<(), ContentError>) {
    if d.length > MAX_CONTENT_BYTE_LENGTH then (f, Err(InvalidDescriptor))
    else
      match Blob(hash, f, d)
      case Err(e) => (f, Err(e))
      case Ok(Some(_)) => (f, Ok(()))
      case Ok(None) =>
        if |source| > d.length then (f, Err(LengthOverflow(d.length)))
        else if Verify(hash, source, d).Some? then (f, Err(Verify(hash, source, d).value))
        else (f.(blobs := f.blobs[d.id := source]), Ok(()))
  }

  /** Imports a file under the digest and length found while copying it. */
  function ImportFile(hash: Hash, f: Files, source: Bytes): (Files, Result<Descriptor, ContentError>) {
    if |source| > MAX_CONTENT_BYTE_LENGTH then (f, Err(ContentTooLarge(|source|)))
    else
      var d := Descriptor(hash(source), |source|);
      match Link(hash, f, d, source)
      case Err(e) => (f, Err(e))
      case Ok(linked) => (linked, Ok(d))
  }

  // ----- schedules with crashes -----

  datatype ContentStep =
    | AppendStep(d: Descriptor, offset: nat, bytes: Bytes)
    | TornAppend(d: Descriptor, offset: nat, bytes: Bytes, tail: Bytes)
    | LinkedOnly(d: Descriptor, offset: nat, bytes: Bytes)
    | ImportStep(d: Descriptor, source: Bytes)
    | ImportFileStep(source: Bytes)
    | TornImport(nonce: nat, bytes: Bytes)

  /** A torn append leaves any tail no longer than the chunk; a crash between link and unlink leaves both files. */
  function Next(hash: Hash, f: Files, step: ContentStep): Files {
    match step
    case AppendStep(d, offset, bytes) => Append(hash, f, d, offset, bytes).0
    case TornAppend(d, offset, bytes, tail) =>
      if Blob(hash, f, d) == Ok(None) && AppendRefusal(hash, f, d, offset, bytes).None? && |tail| <= |bytes| then Extend(f, d.id, tail)
      else f
    case LinkedOnly(d, offset, bytes) =>
      if Blob(hash, f, d) == Ok(None) && AppendRefusal(hash, f, d, offset, bytes).None?
         && offset + |bytes| == d.length && Verify(hash, PartialOf(f, d.id) + bytes, d).None? then
        var written := Extend(f, d.id, bytes);
        written.(blobs := written.blobs[d.id := written.partial[d.id]])
      else f
    case ImportStep(d, source) => Import(hash, f, d, source).0
    case ImportFileStep(source) => ImportFile(hash, f, source).0
    case TornImport(nonce, bytes) => if nonce in f.temps then f else f.(temps := f.temps[nonce := bytes])
  }

  function Run(hash: Hash, f: Files, steps: seq<ContentStep>): Files
    decreases |steps|
  {
    if steps == [] then f else Run(hash, Next(hash, f, steps[0]), steps[1..])
  }

  ghost predicate BlobsVerified(hash: Hash, f: Files) { forall id | id in f.blobs :: hash(f.blobs[id]) == id }

  lemma NextKeepsVerified(hash: Hash, f: Files, step: ContentStep)
    requires BlobsVerified(hash, f)
    ensures BlobsVerified(hash, Next(hash, f, step))
    ensures forall id | id in f.blobs :: id in Next(hash, f, step).blobs && Next(hash, f, step).blobs[id] == f.blobs[id]
  {
  }

  lemma {:induction false} RunKeepsVerified(hash: Hash, f: Files, steps: seq<ContentStep>)
    requires BlobsVerified(hash, f)
    ensures BlobsVerified(hash, Run(hash, f, steps))
    ensures forall id | id in f.blobs :: id in Run(hash, f, steps).blobs && Run(hash, f, steps).blobs[id] == f.blobs[id]
    decreases |steps|
  {
    if steps != [] {
      NextKeepsVerified(hash, f, steps[0]);
      RunKeepsVerified(hash, Next(hash, f, steps[0]), steps[1..]);
    }
  }

  /** After any schedule, the digest check on a blob can be skipped: a blob found under a descriptor is refused exactly
      for its length, and otherwise has the declared length and digest. Blobs never change. */
  lemma PublishedBlobsAreExact(hash: Hash, steps: seq<ContentStep>, d: Descriptor)
    ensures
      var f := Run(hash, NO_FILES, steps);
      && (d.id in f.blobs ==> hash(f.blobs[d.id]) == d.id)
      && (Blob(hash, f, d).Err? <==> d.id in f.blobs && |f.blobs[d.id]| != d.length)
      && (Blob(hash, f, d).Ok? && Blob(hash, f, d).value.Some? ==>
            |Blob(hash, f, d).value.value| == d.length && hash(Blob(hash, f, d).value.value) == d.id)
  {
    RunKeepsVerified(hash, NO_FILES, steps);
  }

  /** A range read returns exactly the requested slice, clipped at the end. */
  lemma ReadRangeIsSlice(hash: Hash, f: Files, d: Descriptor, offset: nat, maximum: nat)
    requires Blob(hash, f, d).Ok? && Blob(hash, f, d).value.Some?
    ensures
      var r, bytes := ReadRange(hash, f, d, offset, maximum), Blob(hash, f, d).value.value;
      && (r.Ok? <==> offset <= d.length)
      && (r.Ok? ==> |r.value| == (if d.length - offset <= maximum then d.length - offset else maximum)
                    && forall i | 0 <= i < |r.value| :: r.value[i] == bytes[offset + i])
  {
  }

  // ----- lengths agree per content id -----

  ghost predicate StepAgrees(step: ContentStep, lengths: ContentId -> nat, hash: Hash) {
    match step
    case AppendStep(d, _, _) => d.length == lengths(d.id)
    case TornAppend(d, _, _, _) => d.length == lengths(d.id)
    case LinkedOnly(d, _, _) => d.length == lengths(d.id)
    case ImportStep(d, _) => d.length == lengths(d.id)
    case ImportFileStep(source) => |source| == lengths(hash(source))
    case TornImport(_, _) => true
  }

  ghost predicate Fitting(f: Files, lengths: ContentId -> nat) {
    && (forall id | id in f.partial :: |f.partial[id]| <= lengths(id))
    && (forall id | id in f.blobs :: |f.blobs[id]| == lengths(id))
  }

  lemma {:induction false} RunKeepsFitting(hash: Hash, f: Files, steps: seq<ContentStep>, lengths: ContentId -> nat)
    requires Fitting(f, lengths) && forall s | s in steps :: StepAgrees(s, lengths, hash)
    ensures Fitting(Run(hash, f, steps), lengths)
    decreases |steps|
  {
    if steps != [] {
      assert StepAgrees(steps[0], lengths, hash);
      NextKeepsFitting(hash, f, steps[0], lengths);
      forall s | s in steps[1..] ensures StepAgrees(s, lengths, hash) { assert s in steps; }
      RunKeepsFitting(hash, Next(hash, f, steps[0]), steps[1..], lengths);
    }
  }

  lemma NextKeepsFitting(hash: Hash, f: Files, step: ContentStep, lengths: ContentId -> nat)
    requires Fitting(f, lengths) && StepAgrees(step, lengths, hash)
    ensures Fitting(Next(hash, f, step), lengths)
  {
  }

  // ----- a caller that feeds every slice, the empty one at the end included, always finishes -----

  /** One round of such a caller: ask for the offset, append the next slice of the true bytes. At the full offset the slice
      is empty, and appending it publishes. */
  function Feed(hash: Hash, f: Files, d: Descriptor, truth: Bytes, chunk: nat): Files
    requires |truth| == d.length
  {
    match PartialOffset(hash, f, d)
    case Err(_) => f
    case Ok(at) =>
      if at > d.length then f
      else Append(hash, f, d, at, truth[at..SliceEnd(at, chunk, d.length)]).0
  }

  function Feeds(hash: Hash, f: Files, d: Descriptor, truth: Bytes, chunk: nat, n: nat): Files
    requires |truth| == d.length
    decreases n
  {
    if n == 0 then f else Feeds(hash, Feed(hash, f, d, truth, chunk), d, truth, chunk, n - 1)
  }

  /** The true bytes, and no other string of their length shares their digest. */
  ghost predicate IsTruth(hash: Hash, d: Descriptor, truth: Bytes) {
    |truth| == d.length && hash(truth) == d.id && forall x | |x| == d.length && hash(x) == d.id :: x == truth
  }

  ghost predicate Downloadable(hash: Hash, f: Files, d: Descriptor) {
    && BlobsVerified(hash, f)
    && (if d.id in f.blobs then |f.blobs[d.id]| == d.length else |PartialOf(f, d.id)| <= d.length)
  }

  ghost predicate OnTrack(f: Files, d: Descriptor, truth: Bytes) {
    var p := PartialOf(f, d.id); |p| <= |truth| && p == truth[..|p|]
  }

  /** Feeds still needed at most: the rest of this pass, and one clean pass more if the partial bytes are wrong. */
  ghost function Left(f: Files, d: Descriptor, truth: Bytes): int {
    if d.id in f.blobs then 0
    else if OnTrack(f, d, truth) then d.length - |PartialOf(f, d.id)| + 1
    else (d.length - |PartialOf(f, d.id)| + 1) + (d.length + 1)
  }

  function SliceEnd(at: nat, chunk: nat, length: nat): nat { if at + chunk <= length then at + chunk else length }

  /** What a feed does while the blob is absent. */
  lemma FeedIs(hash: Hash, f: Files, d: Descriptor, truth: Bytes, chunk: nat)
    requires |truth| == d.length && d.id !in f.blobs && |PartialOf(f, d.id)| <= d.length
    requires 1 <= chunk <= MAX_DOWNLOAD_CHUNK_BYTES
    ensures
      var p, next := PartialOf(f, d.id), Feed(hash, f, d, truth, chunk);
      var end := SliceEnd(|p|, chunk, d.length);
      var q := p + truth[|p|..end];
      && |q| == end
      && if end < d.length then next == f.(partial := f.partial[d.id := q])
         else if hash(q) == d.id then next == f.(partial := f.partial - {d.id}, blobs := f.blobs[d.id := q])
         else next == f.(partial := f.partial - {d.id})
  {
    var p := PartialOf(f, d.id);
    var q := p + truth[|p|..SliceEnd(|p|, chunk, d.length)];
    assert f.partial[d.id := q] - {d.id} == f.partial - {d.id};
  }

  lemma OnTrackExtends(p: Bytes, truth: Bytes, end: nat)
    requires |p| <= end <= |truth|
    ensures p + truth[|p|..end] == truth[..end] <==> p == truth[..|p|]
  {
    if p == truth[..|p|] {
      assert p + truth[|p|..end] == truth[..end];
    } else {
      assert (p + truth[|p|..end])[..|p|] == p && truth[..end][..|p|] == truth[..|p|];
    }
  }

  lemma FeedProgresses(hash: Hash, f: Files, d: Descriptor, truth: Bytes, chunk: nat)
    requires IsTruth(hash, d, truth) && Downloadable(hash, f, d) && 1 <= chunk <= MAX_DOWNLOAD_CHUNK_BYTES
    ensures
      var next := Feed(hash, f, d, truth, chunk);
      && Downloadable(hash, next, d)
      && (if d.id in f.blobs then next == f else Left(next, d, truth) < Left(f, d, truth))
  {
    var p := PartialOf(f, d.id);
    if d.id !in f.blobs {
      var end := SliceEnd(|p|, chunk, d.length);
      FeedIs(hash, f, d, truth, chunk);
      OnTrackExtends(p, truth, end);
      assert truth[..d.length] == truth;
    }
  }

  /** Feeding true slices from the reported offset, down to the empty one, publishes exactly the true bytes, from any
      partial file that is not longer than the content, whatever it holds. */
  lemma {:induction false} DownloadCompletes(hash: Hash, f: Files, d: Descriptor, truth: Bytes, chunk: nat, n: nat)
    requires IsTruth(hash, d, truth) && Downloadable(hash, f, d) && 1 <= chunk <= MAX_DOWNLOAD_CHUNK_BYTES
    requires n >= Left(f, d, truth)
    ensures Blob(hash, Feeds(hash, f, d, truth, chunk, n), d) == Ok(Some(truth))
    decreases n
  {
    if n > 0 {
      FeedProgresses(hash, f, d, truth, chunk);
      DownloadCompletes(hash, Feed(hash, f, d, truth, chunk), d, truth, chunk, n - 1);
    }
  }

  /** After any schedule of appends, wrong offsets, failed digests, torn writes, imports and crashes whose descriptors
      agree on the length of each content id, feeding still completes the download. */
  lemma AnyScheduleThenDownload(hash: Hash, steps: seq<ContentStep>, lengths: ContentId -> nat, d: Descriptor, truth: Bytes,
                                chunk: nat, n: nat)
    requires forall s | s in steps :: StepAgrees(s, lengths, hash)
    requires d.length == lengths(d.id) && IsTruth(hash, d, truth) && 1 <= chunk <= MAX_DOWNLOAD_CHUNK_BYTES
    requires n >= 2 * d.length + 2
    ensures Blob(hash, Feeds(hash, Run(hash, NO_FILES, steps), d, truth, chunk, n), d) == Ok(Some(truth))
  {
    var f := Run(hash, NO_FILES, steps);
    RunKeepsVerified(hash, NO_FILES, steps);
    RunKeepsFitting(hash, NO_FILES, steps, lengths);
    DownloadCompletes(hash, f, d, truth, chunk, n);
  }

  /** Exactly when the store refuses every chunk of a download: a partial file longer than the descriptor, or a published
      blob of another length. No append under that descriptor ever changes it. */
  lemma StuckExactly(hash: Hash, f: Files, d: Descriptor)
    requires BlobsVerified(hash, f)
    ensures PartialOffset(hash, f, d).Err? <==> !Downloadable(hash, f, d)
    ensures !Downloadable(hash, f, d) ==> forall offset, bytes ::
              Append(hash, f, d, offset, bytes).0 == f && Append(hash, f, d, offset, bytes).1.Err?
  {
  }

  /** Counterexample: three bytes stored under a five-byte descriptor make the same content, declared as two bytes, stuck. */
  lemma DownloadCanStick(hash: Hash)
    ensures
      var f := Run(hash, NO_FILES, [AppendStep(Descriptor(7, 5), 0, [1, 2, 3])]);
      !Downloadable(hash, f, Descriptor(7, 2)) && PartialOffset(hash, f, Descriptor(7, 2)) == Err(LengthOverflow(2))
  {
    var step := AppendStep(Descriptor(7, 5), 0, [1, 2, 3]);
    var f := Next(hash, NO_FILES, step);
    assert [step][1..] == [] && Run(hash, NO_FILES, [step]) == f;
    assert f == Extend(NO_FILES, 7, [1, 2, 3]);
    assert PartialOf(f, 7) == [1, 2, 3];
  }

  // ----- the store as it runs -----

  class ContentStore {
    const hash: Hash
    var partial: map<ContentId, Bytes>
    var blobs: map<ContentId, Bytes>
    var temps: map<nat, Bytes>
    var verified: set<ContentId>

    ghost predicate Valid()
      reads this
    {
      BlobsVerified(hash, Stored()) && verified <= blobs.Keys
    }

    ghost function Stored(): Files
      reads this
    {
      Files(partial, blobs, temps)
    }

    /** Reopens the files a crash left; the verification cache starts empty. */
    constructor (h: Hash, f: Files)
      requires BlobsVerified(h, f)
      ensures Valid() && Stored() == f && verified == {} && hash == h
    {
      hash := h;
      partial, blobs, temps, verified := f.partial, f.blobs, f.temps, {};
    }

    /** A blob already verified is not hashed again; the answer is the same as if it were. */
    method FindBlob(d: Descriptor) returns (r: Result<Option<Bytes>, ContentError>)
      requires Valid()
      modifies this`verified
      ensures Valid() && r == Blob(hash, Stored(), d)
    {
      if d.id !in blobs { return Ok(None); }
      if |blobs[d.id]| != d.length { return Err(LengthMismatch(d.length, |blobs[d.id]|)); }
      if d.id !in verified {
        var actual := hash(blobs[d.id]);
        if actual != d.id { return Err(DigestMismatch(d.id, actual)); }
        verified := verified + {d.id};
      }
      r := Ok(Some(blobs[d.id]));
    }

    method FindOffset(d: Descriptor) returns (r: Result<nat, ContentError>)
      requires Valid()
      modifies this`verified
      ensures Valid() && r == PartialOffset(hash, Stored(), d)
    {
      var blob := FindBlob(d);
      if blob.Err? { return Err(blob.error); }
      if blob.value.Some? { return Ok(d.length); }
      if d.id !in partial { return Ok(0); }
      if |partial[d.id]| > d.length { return Err(LengthOverflow(d.length)); }
      r := Ok(|partial[d.id]|);
    }

    method AppendDownloadChunk(d: Descriptor, offset: nat, bytes: Bytes) returns (r: Result<AppendResult, ContentError>)
      requires Valid()
      modifies this
      ensures Valid() && (Stored(), r) == Append(hash, old(Stored()), d, offset, bytes)
    {
      if |bytes| > MAX_DOWNLOAD_CHUNK_BYTES { return Err(ChunkTooLarge); }
      var blob := FindBlob(d);
      if blob.Err? { return Err(blob.error); }
      if blob.value.Some? { return Ok(AppendResult(d.length, true)); }
      var current := FindOffset(d);
      if current.Err? { return Err(current.error); }
      if current.value != offset { return Err(OffsetMismatch(current.value, offset)); }
      if offset + |bytes| > d.length { return Err(LengthOverflow(d.length)); }
      partial := partial[d.id := (if d.id in partial then partial[d.id] else []) + bytes];
      if offset + |bytes| != d.length { return Ok(AppendResult(offset + |bytes|, false)); }
      var wrong := Verify(hash, partial[d.id], d);
      if wrong.Some? {
        partial := partial - {d.id};
        return Err(wrong.value);
      }
      blobs := blobs[d.id := partial[d.id]];
      partial := partial - {d.id};
      r := Ok(AppendResult(offset + |bytes|, true));
    }

    /** Copies the source buffer by buffer, giving up once it exceeds the declared length. */
    method ImportStream(d: Descriptor, buffers: seq<Bytes>, nonce: nat) returns (r: Result<(), ContentError>)
      requires Valid() && nonce !in temps
      modifies this
      ensures Valid() && (Stored(), r) == Import(hash, old(Stored()), d, Concat(buffers))
    {
      if d.length > MAX_CONTENT_BYTE_LENGTH { return Err(InvalidDescriptor); }
      var blob := FindBlob(d);
      if blob.Err? { return Err(blob.error); }
      if blob.value.Some? { return Ok(()); }
      temps := temps[nonce := []];
      var i := 0;
      while i < |buffers|
        invariant 0 <= i <= |buffers| && nonce in temps && temps == old(temps)[nonce := Concat(buffers[..i])]
        invariant |temps[nonce]| <= d.length
        invariant partial == old(partial) && blobs == old(blobs) && verified <= blobs.Keys
      {
        ConcatStep(buffers, i);
        if |temps[nonce]| + |buffers[i]| > d.length {
          ConcatGrows(buffers, i + 1);
          temps := temps - {nonce};
          assert temps == old(temps);
          return Err(LengthOverflow(d.length));
        }
        temps := temps[nonce := temps[nonce] + buffers[i]];
        i := i + 1;
      }
      assert buffers[..|buffers|] == buffers;
      var copied := temps[nonce];
      temps := temps - {nonce};
      assert temps == old(temps);
      var wrong := Verify(hash, copied, d);
      if wrong.Some? { return Err(wrong.value); }
      blobs := blobs[d.id := copied];
      r := Ok(());
    }

    /** Copies a file of unknown content and publishes it under what it turned out to be. */
    method ImportNativeFile(buffers: seq<Bytes>, nonce: nat) returns (r: Result<Descriptor, ContentError>)
      requires Valid() && nonce !in temps
      modifies this
      ensures Valid()
      ensures |Concat(buffers)| <= MAX_CONTENT_BYTE_LENGTH ==> (Stored(), r) == ImportFile(hash, old(Stored()), Concat(buffers))
      ensures |Concat(buffers)| > MAX_CONTENT_BYTE_LENGTH ==> Stored() == old(Stored()) && r.Err? && r.error.ContentTooLarge?
    {
      temps := temps[nonce := []];
      var i := 0;
      while i < |buffers|
        invariant 0 <= i <= |buffers| && nonce in temps && temps == old(temps)[nonce := Concat(buffers[..i])]
        invariant |temps[nonce]| <= MAX_CONTENT_BYTE_LENGTH
        invariant partial == old(partial) && blobs == old(blobs) && verified <= blobs.Keys
      {
        ConcatStep(buffers, i);
        if |temps[nonce]| + |buffers[i]| > MAX_CONTENT_BYTE_LENGTH {
          ConcatGrows(buffers, i + 1);
          temps := temps - {nonce};
          assert temps == old(temps);
          return Err(ContentTooLarge(|Concat(buffers[..i + 1])|));
        }
        temps := temps[nonce := temps[nonce] + buffers[i]];
        i := i + 1;
      }
      assert buffers[..|buffers|] == buffers;
      var copied := temps[nonce];
      temps := temps - {nonce};
      assert temps == old(temps);
      var d := Descriptor(hash(copied), |copied|);
      if d.id in blobs {
        var wrong := Verify(hash, blobs[d.id], d);
        if wrong.Some? { return Err(wrong.value); }
      } else {
        blobs := blobs[d.id := copied];
      }
      r := Ok(d);
    }

    method ReadBlobRange(d: Descriptor, offset: nat, maximum: nat) returns (r: Result<Bytes, ContentError>)
      requires Valid()
      modifies this`verified
      ensures Valid() && r == ReadRange(hash, Stored(), d, offset, maximum)
    {
      var blob := FindBlob(d);
      if blob.Err? { return Err(blob.error); }
      if blob.value.None? { return Err(NotFound); }
      if offset > d.length { return Err(OffsetMismatch(d.length, offset)); }
      var remaining := d.length - offset;
      var length := if remaining <= maximum then remaining else maximum;
      r := Ok(blob.value.value[offset..offset + length]);
    }
  }

  lemma ConcatStep(buffers: seq<Bytes>, i: nat)
    requires i < |buffers|
    ensures Concat(buffers[..i + 1]) == Concat(buffers[..i]) + buffers[i]
  {
    assert buffers[..i + 1][..i] == buffers[..i];
  }

  lemma {:induction false} ConcatGrows(buffers: seq<Bytes>, n: nat)
    requires n <= |buffers|
    ensures |Concat(buffers[..n])| <= |Concat(buffers)|
    decreases |buffers|
  {
    if n < |buffers| {
      var init := buffers[..|buffers| - 1];
      ConcatGrows(init, n);
      assert init[..n] == buffers[..n];
    } else {
      assert buffers[..n] == buffers;
    }
  }
}
