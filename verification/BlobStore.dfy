/** The blob store as it runs. Every durable action names the machine steps it takes, so a crash may fall between any two. */
module BlobStore {
  import opened Wrappers
  import opened Operations
  import opened BlobMachine
  import opened BlobEffects

  const MAX_PATCH_BYTES: nat := 4 * 1_024 * 1_024
  const MAINTENANCE_BATCH: nat := 1_024

  datatype BlobError =
    | UploadTooLarge
    | PatchTooLarge
    | UploadNotFound
    | UploadExpired
    | UploadNotActive
    | OffsetMismatch(expected: nat, supplied: nat)
    | UploadOverflow
    | ChunkChecksumMismatch
    | ContentIdMismatch(declared: ContentId, actual: ContentId)
    | ContentConflict
    | Corrupt

  /** The checks of a PATCH before any byte is written, in order. */
  function PatchError(c: Config, sessions: map<UploadId, Session>, u: UploadId, supplied: nat, bytes: Bytes,
                      checksum: Option<ContentId>, now: int): Option<BlobError>
  {
    if |bytes| > MAX_PATCH_BYTES then Some(PatchTooLarge)
    else if checksum.Some? && checksum.value != c.hash(bytes) then Some(ChunkChecksumMismatch)
    else if u !in sessions then Some(UploadNotFound)
    else if !sessions[u].state.Active? then Some(UploadNotActive)
    else if now >= sessions[u].expiresAt then Some(UploadExpired)
    else if supplied != sessions[u].offset then Some(OffsetMismatch(sessions[u].offset, supplied))
    else if supplied + |bytes| > sessions[u].length then Some(UploadOverflow)
    else None
  }

  function NeedingFinalization(sessions: map<UploadId, Session>): set<UploadId> {
    set u | u in sessions && (sessions[u].state.Finalizing? || (sessions[u].state.Active? && IsFull(sessions[u])))
  }

  function Expired(sessions: map<UploadId, Session>, now: int): set<UploadId> {
    set u | u in sessions && !sessions[u].state.Finalizing? && sessions[u].expiresAt <= now
  }

  /** A bounded query: some of the candidates, all of them if they fit the limit. */
  method Fetch(candidates: set<UploadId>, limit: nat) returns (batch: seq<UploadId>)
    ensures forall i | 0 <= i < |batch| :: batch[i] in candidates
    ensures forall i, j | 0 <= i < j < |batch| :: batch[i] != batch[j]
    ensures |batch| == if |candidates| <= limit then |candidates| else limit
    ensures |batch| < limit ==> forall u | u in candidates :: u in batch
  {
    batch := [];
    var rest := candidates;
    while rest != {} && |batch| < limit
      invariant rest <= candidates && |batch| + |rest| == |candidates| && |batch| <= limit
      invariant forall i | 0 <= i < |batch| :: batch[i] in candidates && batch[i] !in rest
      invariant forall u | u in candidates :: u in rest || u in batch
      invariant forall i, j | 0 <= i < j < |batch| :: batch[i] != batch[j]
      decreases rest
    {
      var u :| u in rest;
      batch := batch + [u];
      rest := rest - {u};
    }
  }

  class BlobStore {
    const config: Config
    var staging: map<UploadId, Bytes>
    var sessions: map<UploadId, Session>
    var blobs: map<ContentId, Bytes>
    var contents: map<ContentId, nat>
    var clock: int
    ghost var m: Machine

    /** The durable state is that of a machine state satisfying the crash invariant. */
    ghost predicate Tied()
      reads this
    {
      && MachineInv(config, m)
      && m.staging == staging && m.sessions == sessions && m.blobs == blobs && m.contents == contents && m.clock == clock
    }

    /** Between calls of an open store. */
    ghost predicate Valid()
      reads this
    {
      Tied() && m.open && m.calls == map[]
    }

    /** Attaches to whatever a crash left on disk. */
    constructor (c: Config, s: map<UploadId, Bytes>, t: map<UploadId, Session>, b: map<ContentId, Bytes>,
                 d: map<ContentId, nat>, now: int, ghost before: Machine)
      requires MachineInv(c, before)
      requires before.staging == s && before.sessions == t && before.blobs == b && before.contents == d && before.clock <= now
      ensures Tied() && !m.open && m.calls == map[] && config == c
      ensures m == Next(c, Next(c, before, Crash), Tick(now))
    {
      config := c;
      staging, sessions, blobs, contents, clock := s, t, b, d, now;
      m := Next(c, Next(c, before, Crash), Tick(now));
      BlobMachine.NextKeepsInv(c, before, Crash);
      BlobMachine.NextKeepsInv(c, Next(c, before, Crash), Tick(now));
    }

    /** Records that the durable step just taken is this machine step. */
    ghost method Did(step: Step)
      requires MachineInv(config, m)
      modifies this`m
      ensures m == Next(config, old(m), step) && MachineInv(config, m)
    {
      BlobMachine.NextKeepsInv(config, m, step);
      m := Next(config, m, step);
    }

    // ----- durable actions, one machine step each -----

    method ReadClock(now: int)
      requires Tied() && clock <= now
      modifies this`clock, this`m
      ensures Tied() && clock == now && m == old(m).(clock := now)
    {
      clock := now;
      Did(Tick(now));
    }

    /** Creates the empty staging file. */
    method ReserveFile(u: UploadId, length: nat, expected: Option<ContentId>)
      requires Valid() && u !in staging && u !in sessions
      requires length <= config.maxBlobBytes && !(length == 0 && Mismatch(config, expected, config.hash([])))
      modifies this`staging, this`m
      ensures m == Next(config, old(m), On(u, Reserve(length, expected)))
      ensures Tied() && m.open && m.calls == map[u := Reserved(length, expected, clock + config.ttl)]
      ensures staging == old(staging)[u := []]
    {
      ReserveEffect(config, m, u, length, expected);
      staging := staging[u := []];
      Did(On(u, Reserve(length, expected)));
    }

    /** Inserts the session row. */
    method RegisterSession(u: UploadId, length: nat, expected: Option<ContentId>, expires: int)
      requires Tied() && m.calls == map[u := Reserved(length, expected, expires)]
      modifies this`sessions, this`m
      ensures m == Next(config, old(m), On(u, Register))
      ensures Tied() && m.open == old(m.open)
      ensures m.calls == if length == 0 then map[u := Hashed(config.hash([]))] else map[]
      ensures sessions == old(sessions)[u := Session(length, 0, Active, expected, None, expires)]
      ensures Get(m, u).received == []
    {
      RegisterEffect(config, m, u, length, expected, expires);
      sessions := sessions[u := Session(length, 0, Active, expected, None, expires)];
      Did(On(u, Register));
    }

    /** Cuts the staging file back to the committed offset, appends the chunk, and syncs it. */
    method WriteChunk(u: UploadId, chunk: Bytes)
      requires Valid() && u in sessions && sessions[u].state.Active? && clock < sessions[u].expiresAt
      requires sessions[u].offset + |chunk| <= sessions[u].length
      modifies this`staging, this`m
      ensures m == Next(config, Next(config, old(m), On(u, BeginWrite(chunk))), On(u, Sync))
      ensures Tied() && m.open && m.calls == map[u := Written(chunk, clock + config.ttl)]
      ensures u in old(staging) && sessions[u].offset <= |old(staging)[u]|
      ensures staging == old(staging)[u := old(staging)[u][..sessions[u].offset] + chunk]
      ensures Get(m, u).received == Get(old(m), u).received == old(staging)[u][..sessions[u].offset]
    {
      BeginWriteEffect(config, m, u, chunk);
      Did(On(u, BeginWrite(chunk)));
      SyncEffect(config, m, u, chunk, clock + config.ttl);
      staging := staging[u := staging[u][..sessions[u].offset] + chunk];
      Did(On(u, Sync));
    }

    /** Cuts a last chunk with the wrong digest off again. */
    method CutBack(u: UploadId, chunk: Bytes, expires: int)
      requires Tied() && m.open && m.calls == map[u := Written(chunk, expires)]
      requires u in sessions && u in staging && sessions[u].offset + |chunk| == sessions[u].length
      requires Mismatch(config, sessions[u].expected, config.hash(staging[u]))
      modifies this`staging, this`m
      ensures m == Next(config, old(m), On(u, Reject))
      ensures Valid() && sessions[u].offset <= |old(staging)[u]| && Get(m, u).received == Get(old(m), u).received
      ensures staging == old(staging)[u := old(staging)[u][..sessions[u].offset]]
    {
      RejectEffect(config, m, u, chunk, expires);
      staging := staging[u := staging[u][..sessions[u].offset]];
      Did(On(u, Reject));
    }

    /** Commits the new offset. */
    method AdvanceUpload(u: UploadId, chunk: Bytes, expires: int)
      requires Tied() && m.calls == map[u := Written(chunk, expires)] && u in sessions && u in staging
      requires sessions[u].offset + |chunk| == sessions[u].length ==>
                 !Mismatch(config, sessions[u].expected, config.hash(staging[u]))
      modifies this`sessions, this`m
      ensures m == Next(config, old(m), On(u, Advance))
      ensures Tied() && m.open == old(m.open) && u in sessions && sessions == old(sessions)[u := sessions[u]]
      ensures sessions[u] == old(sessions)[u].(offset := old(sessions)[u].offset + |chunk|, expiresAt := expires)
      ensures sessions[u].state.Active? && Get(m, u).received == Get(old(m), u).received + chunk
      ensures m.calls == if IsFull(sessions[u]) then map[u := Hashed(config.hash(staging[u]))] else map[]
    {
      AdvanceEffect(config, m, u, chunk, expires);
      sessions := sessions[u := sessions[u].(offset := sessions[u].offset + |chunk|, expiresAt := expires)];
      Did(On(u, Advance));
    }

    /** Makes the transition to finalizing durable. */
    method BeginFinalize(u: UploadId, id: ContentId)
      requires Tied() && m.calls == map[u := Hashed(id)]
      modifies this`sessions, this`m
      ensures m == Next(config, old(m), On(u, Begin))
      ensures Tied() && m.open == old(m.open) && m.calls == map[u := Publishing]
      ensures u in old(sessions)
      ensures sessions == old(sessions)[u := old(sessions)[u].(state := Finalizing, finalId := Some(id))]
      ensures Get(m, u).received == Get(old(m), u).received && id == config.hash(Get(m, u).received)
    {
      BeginEffect(config, m, u, id);
      sessions := sessions[u := sessions[u].(state := Finalizing, finalId := Some(id))];
      Did(On(u, Begin));
    }

    /** Gives up a publication; the session stays finalizing for the next recovery. */
    method AbandonPublication(u: UploadId)
      requires Tied() && m.calls == map[u := Publishing]
      modifies this`m
      ensures Tied() && m.open == old(m.open) && m.calls == map[] && m == Next(config, old(m), On(u, Abandon))
      ensures Get(m, u).received == Get(old(m), u).received
    {
      AbandonEffect(config, m, u);
      Did(On(u, Abandon));
    }

    /** Renames the staging file to its digest, or drops it when an identical blob is already there. */
    method MoveFile(u: UploadId)
      requires Tied() && m.calls == map[u := Publishing] && u in sessions && sessions[u].finalId.Some?
      requires !Clash(blobs, sessions[u].finalId.value, sessions[u].length)
      modifies this`staging, this`blobs, this`m
      ensures Tied() && m.open == old(m.open) && m.calls == map[u := Installed] && m == Next(config, old(m), On(u, Publish))
      ensures Get(m, u).received == Get(old(m), u).received && staging == old(staging) - {u}
      ensures
        var id := sessions[u].finalId.value;
        && id in blobs && |blobs[id]| == sessions[u].length && blobs == old(blobs)[id := blobs[id]]
        && (id in old(blobs) ==> blobs == old(blobs))
    {
      PublishEnabled(config, m, u);
      PublishEffect(config, m, u);
      var id := sessions[u].finalId.value;
      if id !in blobs { blobs := blobs[id := staging[u]]; }
      staging := staging - {u};
      Did(On(u, Publish));
    }

    /** Publishes a finalizing upload; refused exactly when the digest names a blob of another length. */
    method InstallFinalFile(u: UploadId) returns (r: Result<(), BlobError>)
      requires Tied() && m.calls == map[u := Publishing]
      modifies this`staging, this`blobs, this`m
      ensures Tied() && m.open == old(m.open)
      ensures u in sessions && sessions[u].finalId.Some? && Get(m, u).received == Get(old(m), u).received
      ensures
        var id := sessions[u].finalId.value;
        if Clash(old(blobs), id, sessions[u].length) then
          r == Err(Corrupt) && m.calls == map[] && staging == old(staging) && blobs == old(blobs)
        else
          && r.Ok? && m.calls == map[u := Installed] && staging == old(staging) - {u}
          && id in blobs && |blobs[id]| == sessions[u].length && blobs == old(blobs)[id := blobs[id]]
          && (id in old(blobs) ==> blobs == old(blobs))
    {
      PublishEnabled(config, m, u);
      if Clash(blobs, sessions[u].finalId.value, sessions[u].length) {
        AbandonPublication(u);
        return Err(Corrupt);
      }
      MoveFile(u);
      r := Ok(());
    }

    /** Inserts the content descriptor and closes the session; the descriptor never conflicts. */
    method CompleteUpload(u: UploadId) returns (r: Result<(), BlobError>)
      requires Tied() && m.calls == map[u := Installed]
      modifies this`sessions, this`contents, this`m
      ensures m == Next(config, old(m), On(u, Finish))
      ensures Tied() && m.open == old(m.open) && m.calls == map[]
      ensures r.Ok? && u in old(sessions) && old(sessions)[u].finalId.Some?
      ensures sessions == old(sessions)[u := old(sessions)[u].(state := Complete)]
      ensures contents == old(contents)[old(sessions)[u].finalId.value := old(sessions)[u].length]
      ensures forall id | id in old(contents) :: contents[id] == old(contents)[id]
      ensures Get(m, u).received == Get(old(m), u).received
    {
      FinishEnabled(config, m, u);
      FinishEffect(config, m, u);
      var id := sessions[u].finalId.value;
      if id in contents && contents[id] != sessions[u].length { return Err(ContentConflict); }
      contents := contents[id := sessions[u].length];
      sessions := sessions[u := sessions[u].(state := Complete)];
      Did(On(u, Finish));
      r := Ok(());
    }

    // ----- finalization -----

    /** From finalizing to complete, unless the digest names a blob of another length. */
    method PublishAndComplete(u: UploadId) returns (r: Result<(), BlobError>)
      requires Tied() && m.calls == map[u := Publishing]
      modifies this`staging, this`sessions, this`blobs, this`contents, this`m
      ensures Tied() && m.calls == map[] && m.open == old(m.open)
      ensures u in old(sessions) && old(sessions)[u].finalId.Some? && Get(m, u).received == Get(old(m), u).received
      ensures
        var id, length := old(sessions)[u].finalId.value, old(sessions)[u].length;
        if Clash(old(blobs), id, length) then
          r == Err(Corrupt) && staging == old(staging) && sessions == old(sessions) && blobs == old(blobs) && contents == old(contents)
        else
          && r.Ok? && staging == old(staging) - {u} && sessions == old(sessions)[u := old(sessions)[u].(state := Complete)]
          && id in contents && id in blobs && |blobs[id]| == length && blobs == old(blobs)[id := blobs[id]]
          && (id in old(blobs) ==> blobs == old(blobs))
      ensures forall id | id in old(contents) :: id in contents && contents[id] == old(contents)[id]
    {
      r := InstallFinalFile(u);
      if r.Ok? { r := CompleteUpload(u); }
    }

    /** From fully received to complete, unless the digest names a blob of another length. */
    method FinalizeWithId(u: UploadId, id: ContentId) returns (r: Result<(), BlobError>)
      requires Tied() && m.calls == map[u := Hashed(id)]
      modifies this`staging, this`sessions, this`blobs, this`contents, this`m
      ensures Tied() && m.calls == map[] && m.open == old(m.open)
      ensures u in old(sessions) && Get(m, u).received == Get(old(m), u).received && id == config.hash(Get(m, u).received)
      ensures
        var length := old(sessions)[u].length;
        if Clash(old(blobs), id, length) then
          && r == Err(Corrupt) && staging == old(staging) && blobs == old(blobs) && contents == old(contents)
          && sessions == old(sessions)[u := old(sessions)[u].(state := Finalizing, finalId := Some(id))]
        else
          && r.Ok? && staging == old(staging) - {u}
          && sessions == old(sessions)[u := old(sessions)[u].(state := Complete, finalId := Some(id))]
          && id in contents && id in blobs && |blobs[id]| == length && blobs == old(blobs)[id := blobs[id]]
          && (id in old(blobs) ==> blobs == old(blobs))
      ensures forall other | other in old(contents) :: other in contents && contents[other] == old(contents)[other]
    {
      BeginFinalize(u, id);
      r := PublishAndComplete(u);
    }

    // ----- uploads -----

    /** Reads the clock, creates the staging file, then the session row. */
    method RegisterUpload(u: UploadId, length: nat, expected: Option<ContentId>, now: int)
      requires Valid() && clock <= now && u !in staging && u !in sessions
      requires length <= config.maxBlobBytes && !(length == 0 && Mismatch(config, expected, config.hash([])))
      modifies this`clock, this`staging, this`sessions, this`m
      ensures Tied() && m.open && m.calls == if length == 0 then map[u := Hashed(config.hash([]))] else map[]
      ensures sessions == old(sessions)[u := Session(length, 0, Active, expected, None, now + config.ttl)]
      ensures clock == now && staging == old(staging)[u := []]
      ensures Get(m, u).received == []
    {
      ReadClock(now);
      ReserveFile(u, length, expected);
      RegisterSession(u, length, expected, now + config.ttl);
    }

    /** Creates an upload; an empty one is complete at once, unless the empty digest names a nonempty blob. */
    method CreateUpload(u: UploadId, length: nat, expected: Option<ContentId>, now: int) returns (r: Result<Session, BlobError>)
      requires Valid() && clock <= now && u !in staging && u !in sessions
      modifies this
      ensures Valid() && clock <= now && staging.Keys <= old(staging).Keys + {u} && sessions.Keys <= old(sessions).Keys + {u}
      ensures
        if length > config.maxBlobBytes || (length == 0 && Mismatch(config, expected, config.hash([]))) then
          r.Err? && sessions == old(sessions) && staging == old(staging) && contents == old(contents) && blobs == old(blobs)
        else if length == 0 && Clash(old(blobs), config.hash([]), 0) then
          r == Err(Corrupt) && u in sessions && sessions[u].state.Finalizing? && contents == old(contents) && blobs == old(blobs)
        else
          && r.Ok? && sessions == old(sessions)[u := r.value] && r.value.length == length && r.value.offset == 0
          && r.value.expected == expected && r.value.expiresAt == now + config.ttl && Get(m, u).received == []
          && r.value.state == (if length == 0 then Complete else Active)
          && (length > 0 ==> blobs == old(blobs))
          && (length == 0 ==> r.value.finalId == Some(config.hash([])) && config.hash([]) in contents)
          && (length == 0 ==> config.hash([]) in blobs && |blobs[config.hash([])]| == 0)
    {
      if length > config.maxBlobBytes { return Err(UploadTooLarge); }
      if length == 0 && expected.Some? && expected.value != config.hash([]) {
        return Err(ContentIdMismatch(expected.value, config.hash([])));
      }
      RegisterUpload(u, length, expected, now);
      if length == 0 {
        var done := FinalizeWithId(u, config.hash([]));
        if done.Err? { return Err(done.error); }
      }
      r := Ok(sessions[u]);
    }

    /** The digest of what the upload holds once the chunk is appended. */
    ghost function DigestWith(u: UploadId, bytes: Bytes): ContentId
      reads this
    {
      config.hash(Get(m, u).received + bytes)
    }

    /** The last chunk is wrong: it completes the upload under a digest other than the declared one. */
    ghost predicate WrongLast(u: UploadId, bytes: Bytes)
      reads this
      requires u in sessions
    {
      sessions[u].offset + |bytes| == sessions[u].length && Mismatch(config, sessions[u].expected, DigestWith(u, bytes))
    }

    /** The last chunk completes the upload under a digest that names a blob of another length. */
    ghost predicate LastClashes(u: UploadId, bytes: Bytes)
      reads this
      requires u in sessions
    {
      sessions[u].offset + |bytes| == sessions[u].length && Clash(blobs, DigestWith(u, bytes), sessions[u].length)
    }

    /** Appends one chunk at exactly the committed offset; the last chunk completes the upload. It is accepted if and only
        if no check refuses it, a last chunk gives the declared digest, and that digest names no blob of another length. */
    method AppendChunk(u: UploadId, supplied: nat, bytes: Bytes, checksum: Option<ContentId>, now: int)
      returns (r: Result<Session, BlobError>)
      requires Valid() && clock <= now
      modifies this
      ensures Valid() && clock <= now
      ensures
        var refused := PatchError(config, old(sessions), u, supplied, bytes, checksum, now);
        if refused.Some? then
          r == Err(refused.value) && staging == old(staging) && sessions == old(sessions) && contents == old(contents) && blobs == old(blobs)
        else if old(WrongLast(u, bytes)) then
          && r == Err(ContentIdMismatch(old(sessions)[u].expected.value, old(DigestWith(u, bytes))))
          && sessions == old(sessions) && contents == old(contents) && blobs == old(blobs)
          && Get(m, u).received == Get(old(m), u).received
        else if old(LastClashes(u, bytes)) then
          && r == Err(Corrupt) && contents == old(contents) && blobs == old(blobs)
          && u in sessions && sessions == old(sessions)[u := sessions[u]] && sessions[u].state.Finalizing?
          && sessions[u].length == old(sessions)[u].length && sessions[u].finalId == Some(old(DigestWith(u, bytes)))
        else
          && r.Ok? && sessions == old(sessions)[u := r.value]
          && r.value.offset == old(sessions)[u].offset + |bytes| && r.value.length == old(sessions)[u].length
          && r.value.expected == old(sessions)[u].expected && r.value.expiresAt == now + config.ttl
          && Get(m, u).received == Get(old(m), u).received + bytes
          && r.value.state == (if r.value.offset == r.value.length then Complete else Active)
          && (r.value.state.Active? ==> blobs == old(blobs))
          && (r.value.state.Complete? ==> r.value.finalId == Some(config.hash(Get(m, u).received)) && r.value.finalId.value in contents)
    {
      var refused := PatchError(config, sessions, u, supplied, bytes, checksum, now);
      if refused.Some? { return Err(refused.value); }
      ReadClock(now);
      PrepareChunk(u, bytes);
      r := CommitChunk(u, bytes, now + config.ttl);
    }

    /** Writes the chunk; nothing is committed yet. */
    method PrepareChunk(u: UploadId, chunk: Bytes)
      requires Valid() && u in sessions && sessions[u].state.Active? && clock < sessions[u].expiresAt
      requires sessions[u].offset + |chunk| <= sessions[u].length
      modifies this`staging, this`m
      ensures Tied() && m.open && m.calls == map[u := Written(chunk, clock + config.ttl)]
      ensures u in staging && staging[u] == Get(old(m), u).received + chunk && Get(m, u).received == Get(old(m), u).received
    {
      WriteChunk(u, chunk);
    }

    method RejectChunk(u: UploadId, chunk: Bytes, expires: int)
      requires Tied() && m.open && m.calls == map[u := Written(chunk, expires)]
      requires u in sessions && u in staging && sessions[u].offset + |chunk| == sessions[u].length
      requires Mismatch(config, sessions[u].expected, config.hash(staging[u]))
      modifies this`staging, this`m
      ensures Valid() && Get(m, u).received == Get(old(m), u).received
    {
      CutBack(u, chunk, expires);
    }

    method AcceptChunk(u: UploadId, chunk: Bytes, expires: int)
      requires Tied() && m.calls == map[u := Written(chunk, expires)] && u in sessions && u in staging
      requires sessions[u].offset + |chunk| == sessions[u].length ==>
                 !Mismatch(config, sessions[u].expected, config.hash(staging[u]))
      modifies this`sessions, this`m
      ensures Tied() && m.open == old(m.open) && u in sessions
      ensures sessions == old(sessions)[u := old(sessions)[u].(offset := old(sessions)[u].offset + |chunk|, expiresAt := expires)]
      ensures sessions[u].state.Active? && Get(m, u).received == Get(old(m), u).received + chunk
      ensures m.calls == if IsFull(sessions[u]) then map[u := Hashed(config.hash(staging[u]))] else map[]
    {
      AdvanceUpload(u, chunk, expires);
    }

    /** Commits a written chunk, or cuts it off again when it completes the upload with the wrong digest. */
    method CommitChunk(u: UploadId, chunk: Bytes, expires: int) returns (r: Result<Session, BlobError>)
      requires Tied() && m.open && m.calls == map[u := Written(chunk, expires)] && u in sessions && u in staging
      requires sessions[u].state.Active? && staging[u] == Get(m, u).received + chunk
      modifies this`staging, this`sessions, this`blobs, this`contents, this`m
      ensures Valid()
      ensures
        if old(WrongLast(u, chunk)) then
          && r == Err(ContentIdMismatch(old(sessions)[u].expected.value, old(DigestWith(u, chunk))))
          && sessions == old(sessions) && contents == old(contents) && blobs == old(blobs)
          && Get(m, u).received == Get(old(m), u).received
        else if old(LastClashes(u, chunk)) then
          && r == Err(Corrupt) && contents == old(contents) && blobs == old(blobs)
          && u in sessions && sessions == old(sessions)[u := sessions[u]] && sessions[u].state.Finalizing?
          && sessions[u].length == old(sessions)[u].length && sessions[u].finalId == Some(old(DigestWith(u, chunk)))
        else
          && r.Ok? && sessions == old(sessions)[u := r.value]
          && r.value.offset == old(sessions)[u].offset + |chunk| && r.value.length == old(sessions)[u].length
          && r.value.expected == old(sessions)[u].expected && r.value.expiresAt == expires
          && Get(m, u).received == Get(old(m), u).received + chunk
          && r.value.state == (if r.value.offset == r.value.length then Complete else Active)
          && (r.value.state.Active? ==> blobs == old(blobs))
          && (r.value.state.Complete? ==> r.value.finalId == Some(config.hash(Get(m, u).received)) && r.value.finalId.value in contents)
    {
      var id := config.hash(staging[u]);
      if sessions[u].offset + |chunk| == sessions[u].length && sessions[u].expected.Some? && sessions[u].expected.value != id {
        RejectChunk(u, chunk, expires);
        return Err(ContentIdMismatch(sessions[u].expected.value, id));
      }
      r := AdvanceAndFinish(u, chunk, expires);
    }

    /** Commits the offset, and finalizes the upload if that was its last chunk. */
    method AdvanceAndFinish(u: UploadId, chunk: Bytes, expires: int) returns (r: Result<Session, BlobError>)
      requires Tied() && m.open && m.calls == map[u := Written(chunk, expires)] && u in sessions && u in staging
      requires sessions[u].state.Active? && staging[u] == Get(m, u).received + chunk && !WrongLast(u, chunk)
      modifies this`staging, this`sessions, this`blobs, this`contents, this`m
      ensures Valid()
      ensures
        if old(LastClashes(u, chunk)) then
          && r == Err(Corrupt) && contents == old(contents) && blobs == old(blobs)
          && u in sessions && sessions == old(sessions)[u := sessions[u]] && sessions[u].state.Finalizing?
          && sessions[u].length == old(sessions)[u].length && sessions[u].finalId == Some(old(DigestWith(u, chunk)))
        else
          && r.Ok? && sessions == old(sessions)[u := r.value]
          && r.value.offset == old(sessions)[u].offset + |chunk| && r.value.length == old(sessions)[u].length
          && r.value.expected == old(sessions)[u].expected && r.value.expiresAt == expires
          && Get(m, u).received == Get(old(m), u).received + chunk
          && r.value.state == (if r.value.offset == r.value.length then Complete else Active)
          && (r.value.state.Active? ==> blobs == old(blobs))
          && (r.value.state.Complete? ==> r.value.finalId == Some(config.hash(Get(m, u).received)) && r.value.finalId.value in contents)
    {
      var id := config.hash(staging[u]);
      AcceptChunk(u, chunk, expires);
      if IsFull(sessions[u]) {
        var done := FinalizeWithId(u, id);
        if done.Err? { return Err(done.error); }
      }
      r := Ok(sessions[u]);
    }

    /** Sends a chunk that no check refuses. */
    method SendChunk(u: UploadId, bytes: Bytes, now: int)
      requires Valid() && clock <= now && u in sessions && sessions[u].state.Active? && now < sessions[u].expiresAt
      requires |bytes| <= MAX_PATCH_BYTES && sessions[u].offset + |bytes| <= sessions[u].length
      requires !WrongLast(u, bytes) && !LastClashes(u, bytes)
      modifies this
      ensures Valid() && clock <= now && u in sessions && Get(m, u).received == Get(old(m), u).received + bytes
      ensures sessions[u].length == old(sessions)[u].length && sessions[u].expected == old(sessions)[u].expected
      ensures sessions[u].offset == old(sessions)[u].offset + |bytes| && sessions[u].expiresAt == now + config.ttl
      ensures if IsFull(sessions[u]) then sessions[u].state.Complete? && sessions[u].finalId == Some(config.hash(Get(m, u).received))
              else sessions[u].state.Active? && blobs == old(blobs)
      ensures IsFull(sessions[u]) ==> sessions[u].finalId.value in contents
    {
      var r := AppendChunk(u, sessions[u].offset, bytes, None, now);
    }

    /** A client that sends the rest of the true bytes, chunk by chunk from the committed offset and each chunk before the
        upload expires, always ends with a complete upload named by the digest of everything received. */
    method UploadRest(u: UploadId, rest: Bytes, ends: seq<nat>, times: seq<int>)
      requires Valid() && u in sessions && sessions[u].state.Active? && sessions[u].offset + |rest| == sessions[u].length
      requires Cuts(ends, |rest|) && |times| == |ends|
      requires clock <= times[0] < sessions[u].expiresAt && Paced(times, config.ttl)
      requires !WrongLast(u, rest) && !LastClashes(u, rest)
      modifies this
      ensures Valid() && u in sessions && sessions[u].state.Complete?
      ensures Get(m, u).received == Get(old(m), u).received + rest
      ensures sessions[u].finalId == Some(old(DigestWith(u, rest))) && sessions[u].finalId.value in contents
    {
      ghost var before := Get(m, u).received;
      FileHoldsOffset(config, m, u, times[0]);
      for n := 0 to |ends|
        invariant Valid() && u in sessions
        invariant sessions[u].length == old(sessions)[u].length && sessions[u].expected == old(sessions)[u].expected
        invariant sessions[u].offset == old(sessions)[u].offset + Start(ends, n)
        invariant Get(m, u).received == before + rest[..Start(ends, n)]
        invariant n < |ends| ==> sessions[u].state.Active? && blobs == old(blobs) && clock <= times[n] < sessions[u].expiresAt
        invariant n == |ends| ==> sessions[u].state.Complete? && sessions[u].finalId == Some(config.hash(before + rest))
        invariant n == |ends| ==> sessions[u].finalId.value in contents
      {
        SliceExtends(before, rest, Start(ends, n), ends[n]);
        SendChunk(u, rest[Start(ends, n)..ends[n]], times[n]);
      }
    }

    // ----- recovery -----

    /** Removes staging files without a session. */
    method RemoveOrphans()
      requires Tied() && !m.open && m.calls == map[]
      modifies this`staging, this`m
      ensures Tied() && !m.open && m.calls == map[]
      ensures forall u | u in staging :: u in sessions && u in old(staging)
      ensures forall u | u in old(staging) && u in sessions :: u in staging && staging[u] == old(staging)[u]
    {
      var entries := staging.Keys;
      while entries != {}
        invariant Tied() && !m.open && m.calls == map[]
        invariant forall u | u in staging :: u in old(staging) && (u in sessions || u in entries)
        invariant entries <= staging.Keys
        invariant forall u | u in old(staging) && u in sessions :: u in staging && staging[u] == old(staging)[u]
        decreases entries
      {
        var u :| u in entries;
        if u !in sessions { RemoveOrphanFile(u); }
        entries := entries - {u};
      }
    }

    method RemoveOrphanFile(u: UploadId)
      requires Tied() && !m.open && m.calls == map[] && u in staging && u !in sessions
      modifies this`staging, this`m
      ensures m == Next(config, old(m), On(u, RemoveOrphan))
      ensures Tied() && !m.open && m.calls == map[] && staging == old(staging) - {u}
    {
      OrphanEffect(config, m, u);
      staging := staging - {u};
      Did(On(u, RemoveOrphan));
    }

    /** Brings one interrupted upload to completion, unless its digest names a blob of another length; the digest always
        matches what was declared. */
    method FinishInterrupted(u: UploadId) returns (r: Result<(), BlobError>)
      requires Tied() && !m.open && m.calls == map[] && u in NeedingFinalization(sessions)
      modifies this`staging, this`sessions, this`blobs, this`contents, this`m
      ensures Tied() && !m.open && m.calls == map[] && u in old(sessions)
      ensures
        var id, length := Digest(config, old(staging), old(sessions), u), old(sessions)[u].length;
        if Clash(old(blobs), id, length) then
          r == Err(Corrupt) && staging == old(staging) && sessions.Keys == old(sessions).Keys
        else
          && r.Ok? && staging == old(staging) - {u}
          && u in sessions && sessions == old(sessions)[u := sessions[u]] && sessions[u].state.Complete?
          && id in blobs && |blobs[id]| == length && blobs == old(blobs)[id := blobs[id]]
          && (id in old(blobs) ==> blobs == old(blobs))
      ensures forall id | id in old(contents) :: id in contents && contents[id] == old(contents)[id]
    {
      ResumeEffect(config, m, u);
      Did(On(u, Resume));
      if sessions[u].state.Active? {
        r := FinalizeWithId(u, config.hash(staging[u]));
      } else {
        r := PublishAndComplete(u);
      }
    }

    /** Removes the staging file, then the session row. */
    method DiscardUpload(u: UploadId)
      requires Tied() && !m.open && m.calls == map[] && NeedingFinalization(sessions) == {} && u in Expired(sessions, clock)
      modifies this`staging, this`sessions, this`m
      ensures Tied() && !m.open && m.calls == map[]
      ensures staging == old(staging) - {u} && sessions == old(sessions) - {u}
    {
      assert u !in NeedingFinalization(sessions);
      ExpireEffect(config, m, u);
      staging := staging - {u};
      Did(On(u, Expire));
      ForgetEffect(config, m, u);
      sessions := sessions - {u};
      Did(On(u, Forget));
    }

    /** Whatever recovery keeps from its first step to its last. */
    ghost predicate Recovering(oldContents: map<ContentId, nat>, ids: set<UploadId>)
      reads this
    {
      && Tied() && !m.open && m.calls == map[]
      && sessions.Keys <= ids && (forall u | u in staging :: u in sessions)
      && (forall id | id in oldContents :: id in contents && contents[id] == oldContents[id])
    }

    ghost predicate AllCompatible()
      reads this
    {
      Compatible(config, staging, sessions, blobs)
    }

    /** Finalizes one fetched batch, stopping at the first clash. */
    method FinalizeBatch(batch: seq<UploadId>, ghost oldContents: map<ContentId, nat>, ghost ids: set<UploadId>) returns (r: Result<(), BlobError>)
      requires Recovering(oldContents, ids)
      requires forall i | 0 <= i < |batch| :: batch[i] in NeedingFinalization(sessions)
      requires forall i, j | 0 <= i < j < |batch| :: batch[i] != batch[j]
      modifies this`staging, this`sessions, this`blobs, this`contents, this`m
      ensures Recovering(oldContents, ids)
      ensures r.Ok? ==> NeedingFinalization(sessions) == NeedingFinalization(old(sessions)) - Members(batch, |batch|)
      ensures r.Ok? ==> (AllCompatible() <==> old(AllCompatible()))
      ensures r.Err? ==> r == Err(Corrupt) && !old(AllCompatible())
      ensures batch == [] ==> blobs == old(blobs)
    {
      r := Ok(());
      var i := 0;
      while i < |batch|
        invariant 0 <= i <= |batch| && Recovering(oldContents, ids) && r.Ok?
        invariant NeedingFinalization(sessions) == NeedingFinalization(old(sessions)) - Members(batch, i)
        invariant AllCompatible() <==> old(AllCompatible())
        invariant i == 0 ==> blobs == old(blobs)
      {
        var u := batch[i];
        ghost var s, t, b := staging, sessions, blobs;
        r := FinishInterrupted(u);
        if r.Err? {
          ClashIsIncompatible(config, s, t, b, u);
          return;
        }
        CompatibleAfter(config, s, t, b, u, sessions[u], blobs);
        NeedingAfter(t, u, sessions[u]);
        MembersGrow(batch, i);
        i := i + 1;
      }
    }

    /** Batches until a short one: it succeeds if and only if no digests clash, and then nothing is finalizing and nothing
        fully received is still active. */
    method FinalizeAll(ghost oldContents: map<ContentId, nat>, ghost ids: set<UploadId>) returns (r: Result<(), BlobError>)
      requires Recovering(oldContents, ids)
      modifies this`staging, this`sessions, this`blobs, this`contents, this`m
      ensures Recovering(oldContents, ids)
      ensures if old(AllCompatible()) then r.Ok? && NeedingFinalization(sessions) == {} else r == Err(Corrupt)
      ensures NeedingFinalization(old(sessions)) == {} ==> blobs == old(blobs)
    {
      var more := true;
      r := Ok(());
      while more
        invariant Recovering(oldContents, ids) && r.Ok?
        invariant AllCompatible() <==> old(AllCompatible())
        invariant !more ==> NeedingFinalization(sessions) == {}
        invariant NeedingFinalization(old(sessions)) == {} ==> blobs == old(blobs) && NeedingFinalization(sessions) == {}
        decreases more, |NeedingFinalization(sessions)|
      {
        ghost var needing := NeedingFinalization(sessions);
        var batch := Fetch(NeedingFinalization(sessions), MAINTENANCE_BATCH);
        r := FinalizeBatch(batch, oldContents, ids);
        if r.Err? { return; }
        Shrinks(needing, batch);
        more := |batch| >= MAINTENANCE_BATCH;
      }
      NothingClashes(config, staging, sessions, blobs);
    }

    method DiscardBatch(batch: seq<UploadId>, ghost oldContents: map<ContentId, nat>, ghost ids: set<UploadId>)
      requires Recovering(oldContents, ids) && NeedingFinalization(sessions) == {}
      requires forall i | 0 <= i < |batch| :: batch[i] in Expired(sessions, clock)
      requires forall i, j | 0 <= i < j < |batch| :: batch[i] != batch[j]
      modifies this`staging, this`sessions, this`m
      ensures Recovering(oldContents, ids) && NeedingFinalization(sessions) == {}
      ensures Expired(sessions, clock) == Expired(old(sessions), clock) - Members(batch, |batch|)
    {
      var i := 0;
      while i < |batch|
        invariant 0 <= i <= |batch| && Recovering(oldContents, ids) && NeedingFinalization(sessions) == {}
        invariant Expired(sessions, clock) == Expired(old(sessions), clock) - Members(batch, i)
      {
        ghost var before := sessions;
        DiscardUpload(batch[i]);
        ExpiredAfter(before, batch[i], clock);
        MembersGrow(batch, i);
        i := i + 1;
      }
    }

    method DiscardExpired(ghost oldContents: map<ContentId, nat>, ghost ids: set<UploadId>)
      requires Recovering(oldContents, ids) && NeedingFinalization(sessions) == {}
      modifies this`staging, this`sessions, this`m
      ensures Recovering(oldContents, ids) && NeedingFinalization(sessions) == {} && Expired(sessions, clock) == {}
    {
      var more := true;
      while more
        invariant Recovering(oldContents, ids) && NeedingFinalization(sessions) == {}
        invariant !more ==> Expired(sessions, clock) == {}
        decreases more, |Expired(sessions, clock)|
      {
        ghost var expired := Expired(sessions, clock);
        var batch := Fetch(Expired(sessions, clock), MAINTENANCE_BATCH);
        DiscardBatch(batch, oldContents, ids);
        Shrinks(expired, batch);
        more := |batch| >= MAINTENANCE_BATCH;
      }
    }

    /** Recovery from any state a crash can leave: it terminates; it succeeds if and only if no two digests of interrupted
        uploads and stored blobs clash in length; then it leaves no orphan file, no finalizing and no fully received active
        upload and nothing expired, and opens the store. Otherwise it reports corruption and the crash invariant still
        holds. Either way every descriptor is kept and backed. */
    method Recover() returns (r: Result<(), BlobError>)
      requires Tied() && !m.open && m.calls == map[]
      modifies this`staging, this`sessions, this`blobs, this`contents, this`m
      ensures if old(AllCompatible()) then r.Ok? && Valid() && Recovered(m) else r == Err(Corrupt) && Tied() && !m.open && m.calls == map[]
      ensures sessions.Keys <= old(sessions).Keys && forall u | u in staging :: u in sessions
      ensures r.Ok? ==> forall u | u in sessions ::
                !sessions[u].state.Finalizing? && !(sessions[u].state.Active? && IsFull(sessions[u]))
      ensures r.Ok? ==> forall u | u in sessions :: clock < sessions[u].expiresAt
      ensures NeedingFinalization(old(sessions)) == {} ==> blobs == old(blobs)
      ensures forall id | id in old(contents) :: id in contents && contents[id] == old(contents)[id]
      ensures forall id | id in contents :: id in blobs && |blobs[id]| == contents[id] && config.hash(blobs[id]) == id
    {
      RemoveOrphans();
      OrphansAreIrrelevant(config, old(staging), staging, sessions, blobs);
      r := FinalizeAll(old(contents), old(sessions).Keys);
      if r.Err? { return; }
      DiscardExpired(old(contents), old(sessions).Keys);
      forall u | u in sessions
        ensures !sessions[u].state.Finalizing? && !(sessions[u].state.Active? && IsFull(sessions[u]))
        ensures clock < sessions[u].expiresAt
      {
        assert u !in NeedingFinalization(sessions) && u !in Expired(sessions, clock);
      }
      Did(Open);
    }
  }

  // ----- clashes -----

  /** The digest an interrupted upload will be published under. */
  function Digest(c: Config, staging: map<UploadId, Bytes>, sessions: map<UploadId, Session>, u: UploadId): ContentId
    requires u in sessions
  {
    if sessions[u].finalId.Some? then sessions[u].finalId.value
    else if u in staging then c.hash(staging[u])
    else c.hash([])
  }

  /** No interrupted upload shares its digest, at another length, with a stored blob or another interrupted upload. */
  ghost predicate Compatible(c: Config, staging: map<UploadId, Bytes>, sessions: map<UploadId, Session>,
                             blobs: map<ContentId, Bytes>)
  {
    && (forall u | u in NeedingFinalization(sessions) :: !Clash(blobs, Digest(c, staging, sessions, u), sessions[u].length))
    && (forall u, w | u in NeedingFinalization(sessions) && w in NeedingFinalization(sessions) ::
          Digest(c, staging, sessions, u) == Digest(c, staging, sessions, w) ==> sessions[u].length == sessions[w].length)
  }

  lemma ClashIsIncompatible(c: Config, staging: map<UploadId, Bytes>, sessions: map<UploadId, Session>,
                            blobs: map<ContentId, Bytes>, u: UploadId)
    requires u in NeedingFinalization(sessions) && Clash(blobs, Digest(c, staging, sessions, u), sessions[u].length)
    ensures !Compatible(c, staging, sessions, blobs)
  {
  }

  lemma NothingClashes(c: Config, staging: map<UploadId, Bytes>, sessions: map<UploadId, Session>, blobs: map<ContentId, Bytes>)
    requires NeedingFinalization(sessions) == {}
    ensures Compatible(c, staging, sessions, blobs)
  {
  }

  lemma OrphansAreIrrelevant(c: Config, staging: map<UploadId, Bytes>, kept: map<UploadId, Bytes>,
                             sessions: map<UploadId, Session>, blobs: map<ContentId, Bytes>)
    requires forall u | u in kept :: u in staging
    requires forall u | u in staging && u in sessions :: u in kept && kept[u] == staging[u]
    ensures Compatible(c, kept, sessions, blobs) <==> Compatible(c, staging, sessions, blobs)
  {
    forall u | u in sessions ensures Digest(c, kept, sessions, u) == Digest(c, staging, sessions, u) { }
  }

  lemma ClashAfter(blobs: map<ContentId, Bytes>, next: map<ContentId, Bytes>, id: ContentId, length: nat,
                   other: ContentId, otherLength: nat)
    requires !Clash(blobs, id, length) && id in next && |next[id]| == length
    requires next == blobs[id := next[id]] && (id in blobs ==> next == blobs)
    ensures Clash(next, other, otherLength) <==> Clash(blobs, other, otherLength) || (other == id && otherLength != length)
  {
  }

  /** Publishing one interrupted upload neither creates nor removes a clash. */
  lemma CompatibleAfter(c: Config, staging: map<UploadId, Bytes>, sessions: map<UploadId, Session>,
                        blobs: map<ContentId, Bytes>, u: UploadId, s: Session, next: map<ContentId, Bytes>)
    requires u in NeedingFinalization(sessions) && s.state.Complete?
    requires
      var id := Digest(c, staging, sessions, u);
      && !Clash(blobs, id, sessions[u].length) && id in next && |next[id]| == sessions[u].length
      && next == blobs[id := next[id]] && (id in blobs ==> next == blobs)
    ensures Compatible(c, staging - {u}, sessions[u := s], next) <==> Compatible(c, staging, sessions, blobs)
  {
    var t, f, id := sessions[u := s], staging - {u}, Digest(c, staging, sessions, u);
    NeedingAfter(sessions, u, s);
    forall w | w in NeedingFinalization(sessions) && w != u
      ensures Digest(c, f, t, w) == Digest(c, staging, sessions, w) && t[w] == sessions[w]
      ensures Clash(next, Digest(c, f, t, w), t[w].length) <==>
              || Clash(blobs, Digest(c, staging, sessions, w), sessions[w].length)
              || (Digest(c, staging, sessions, w) == id && sessions[w].length != sessions[u].length)
    {
      ClashAfter(blobs, next, id, sessions[u].length, Digest(c, staging, sessions, w), sessions[w].length);
    }
  }

  /** Opening the store on whatever any run of the machine left on disk, crashed at any point, succeeds if and only if no
      digests clash in length; either way every descriptor is kept and backed. */
  method Restart(c: Config, staging: map<UploadId, Bytes>, sessions: map<UploadId, Session>, blobs: map<ContentId, Bytes>,
                 contents: map<ContentId, nat>, now: int, ghost steps: seq<Step>)
    returns (store: BlobStore, r: Result<(), BlobError>)
    requires
      var m := Run(c, EMPTY_MACHINE, steps);
      m.staging == staging && m.sessions == sessions && m.blobs == blobs && m.contents == contents && m.clock <= now
    ensures fresh(store) && store.config == c && store.Tied() && store.clock == now
    ensures store.sessions.Keys <= sessions.Keys && forall u | u in store.staging :: u in store.sessions
    ensures if Compatible(c, staging, sessions, blobs) then r.Ok? && store.Valid() && Recovered(store.m) else r == Err(Corrupt)
    ensures forall id | id in contents :: id in store.contents && store.contents[id] == contents[id]
    ensures NeedingFinalization(sessions) == {} ==> store.blobs == blobs
    ensures forall id | id in store.contents ::
              id in store.blobs && |store.blobs[id]| == store.contents[id] && c.hash(store.blobs[id]) == id
  {
    EmptyIsInv(c);
    BlobMachine.RunKeepsInv(c, EMPTY_MACHINE, steps);
    store := new BlobStore(c, staging, sessions, blobs, contents, now, Run(c, EMPTY_MACHINE, steps));
    r := store.Recover();
  }

  function Confused(): Config { Config(_ => 0, 8, 8) }

  /** A fresh store under a digest that confuses lengths, holding only an empty blob. */
  method WithEmptyBlob() returns (store: BlobStore)
    ensures fresh(store) && store.config == Confused() && store.Valid() && store.clock <= 0
    ensures store.staging.Keys <= {1} && store.sessions.Keys <= {1} && 0 in store.blobs && |store.blobs[0]| == 0
  {
    NothingClashes(Confused(), map[], map[], map[]);
    var r;
    store, r := Restart(Confused(), map[], map[], map[], map[], 0, []);
    var empty := store.CreateUpload(1, 0, None, 0);
  }

  /** A one-byte upload beside it is reported corrupt at its last chunk and stays finalizing. */
  method ThenOneByte(store: BlobStore)
    requires store.config == Confused() && store.Valid() && store.clock <= 0
    requires store.staging.Keys <= {1} && store.sessions.Keys <= {1} && 0 in store.blobs && |store.blobs[0]| == 0
    modifies store
    ensures store.Valid() && 2 in store.sessions && store.sessions[2].state.Finalizing? && store.sessions[2].length == 1
    ensures store.sessions[2].finalId == Some(0) && 0 in store.blobs && |store.blobs[0]| == 0
  {
    var one := store.CreateUpload(2, 1, None, 0);
    var last := store.AppendChunk(2, 0, [5], None, 0);
  }

  /** Counterexample for a digest that confuses lengths: an empty and a one-byte upload leave a working store whose
      files cannot be recovered. */
  method RecoveryCanFail() returns (store: BlobStore, r: Result<(), BlobError>)
    ensures fresh(store) && store.Valid() && !Compatible(store.config, store.staging, store.sessions, store.blobs)
    ensures r == Err(Corrupt)
  {
    store := WithEmptyBlob();
    ThenOneByte(store);
    assert 2 in NeedingFinalization(store.sessions);
    ClashIsIncompatible(Confused(), store.staging, store.sessions, store.blobs, 2);
    var again := new BlobStore(Confused(), store.staging, store.sessions, store.blobs, store.contents, store.clock, store.m);
    r := again.Recover();
  }

  /** Where the successive chunks of a string end: nonempty chunks of an allowed size that cover it. */
  ghost predicate Cuts(ends: seq<nat>, length: nat) {
    && ends != [] && ends[|ends| - 1] == length
    && (forall i | 0 <= i < |ends| :: Start(ends, i) < ends[i] <= length && ends[i] - Start(ends, i) <= MAX_PATCH_BYTES)
    && (forall i | 0 <= i < |ends| - 1 :: ends[i] < length)
  }

  function Start(ends: seq<nat>, i: nat): nat
    requires i <= |ends|
  {
    if i == 0 then 0 else ends[i - 1]
  }

  /** Clock readings that never go back and never let an upload touched at one expire before the next. */
  ghost predicate Paced(times: seq<int>, ttl: int) {
    forall i | 0 < i < |times| :: times[i - 1] <= times[i] < times[i - 1] + ttl
  }

  lemma SliceExtends(before: Bytes, rest: Bytes, from: nat, to: nat)
    requires from <= to <= |rest|
    ensures before + rest[..from] + rest[from..to] == before + rest[..to]
    ensures to == |rest| ==> before + rest[..to] == before + rest
  {
  }

  function Members(batch: seq<UploadId>, n: nat): set<UploadId>
    requires n <= |batch|
  {
    set i | 0 <= i < n :: batch[i]
  }

  lemma MembersGrow(batch: seq<UploadId>, n: nat)
    requires n < |batch|
    ensures Members(batch, n + 1) == Members(batch, n) + {batch[n]}
  {
  }

  lemma NeedingAfter(sessions: map<UploadId, Session>, u: UploadId, s: Session)
    requires s.state.Complete?
    ensures NeedingFinalization(sessions[u := s]) == NeedingFinalization(sessions) - {u}
  {
  }

  lemma ExpiredAfter(sessions: map<UploadId, Session>, u: UploadId, now: int)
    ensures Expired(sessions - {u}, now) == Expired(sessions, now) - {u}
    ensures NeedingFinalization(sessions - {u}) == NeedingFinalization(sessions) - {u}
  {
  }

  lemma {:induction false} MembersCount(batch: seq<UploadId>, n: nat)
    requires n <= |batch| && forall i, j | 0 <= i < j < |batch| :: batch[i] != batch[j]
    ensures |Members(batch, n)| == n
  {
    if n > 0 {
      MembersCount(batch, n - 1);
      MembersGrow(batch, n - 1);
      assert batch[n - 1] !in Members(batch, n - 1);
    }
  }

  /** Handling a batch takes exactly its members off the work list. */
  lemma Shrinks(needing: set<UploadId>, batch: seq<UploadId>)
    requires forall i | 0 <= i < |batch| :: batch[i] in needing
    requires forall i, j | 0 <= i < j < |batch| :: batch[i] != batch[j]
    ensures |needing - Members(batch, |batch|)| == |needing| - |batch|
    ensures (forall u | u in needing :: u in batch) ==> needing - Members(batch, |batch|) == {}
  {
    MembersCount(batch, |batch|);
    var all := Members(batch, |batch|);
    assert all <= needing && |needing - all| == |needing| - |all|;
  }
}
