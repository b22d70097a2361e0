/** Each enabled machine step, spelled out as the update of files and tables it performs. */
module BlobEffects {
  import opened Wrappers
  import opened Operations
  import opened BlobMachine

  /** The machine after an update of one upload's rows. */
  function Updated(m: Machine, u: UploadId, staging: map<UploadId, Bytes>, sessions: map<UploadId, Session>,
                   calls: map<UploadId, Call>, received: Bytes): Machine
  {
    m.(staging := staging, sessions := sessions, calls := calls, received := m.received[u := received])
  }

  lemma Only<K, V>(m: map<K, V>, k: K, v: V)
    requires m == map[k := v]
    ensures m - {k} == map[] && (forall w :: m[k := w] == map[k := w])
  {
    forall w ensures m[k := w] == map[k := w] { assert m[k := w].Keys == {k}; }
  }

  lemma Absent<K, V>(m: map<K, V>, k: K)
    requires k !in m
    ensures m - {k} == m
  {
  }

  lemma Same<K, V>(m: map<K, V>, k: K)
    requires k in m
    ensures m[k := m[k]] == m
  {
  }

  ghost predicate Running(c: Config, m: Machine, u: UploadId, call: Call) {
    MachineInv(c, m) && m.calls == map[u := call]
  }

  ghost predicate Quiet(c: Config, m: Machine) { MachineInv(c, m) && m.calls == map[] }

  lemma ReserveEffect(c: Config, m: Machine, u: UploadId, length: nat, expected: Option<ContentId>)
    requires Quiet(c, m) && m.open && u !in m.staging && u !in m.sessions
    requires length <= c.maxBlobBytes && !(length == 0 && Mismatch(c, expected, c.hash([])))
    ensures Next(c, m, On(u, Reserve(length, expected))) ==
            Updated(m, u, m.staging[u := []], m.sessions, map[u := Reserved(length, expected, m.clock + c.ttl)], Get(m, u).received)
  {
    Absent(m.sessions, u);
  }

  lemma RegisterEffect(c: Config, m: Machine, u: UploadId, length: nat, expected: Option<ContentId>, expires: int)
    requires Running(c, m, u, Reserved(length, expected, expires))
    ensures u in m.staging && m.staging[u] == []
    ensures Next(c, m, On(u, Register)) ==
            Updated(m, u, m.staging, m.sessions[u := Session(length, 0, Active, expected, None, expires)],
                    if length == 0 then map[u := Hashed(c.hash([]))] else map[], [])
  {
    assert ViewOk(c, m, Get(m, u));
    Same(m.staging, u);
    Only(m.calls, u, Reserved(length, expected, expires));
  }

  /** An unexpired active upload of an idle open store still holds every committed byte and is not full. */
  lemma FileHoldsOffset(c: Config, m: Machine, u: UploadId, now: int)
    requires Quiet(c, m) && m.open && m.clock <= now
    requires u in m.sessions && m.sessions[u].state.Active? && now < m.sessions[u].expiresAt
    ensures u in m.staging && m.sessions[u].offset <= |m.staging[u]| && m.sessions[u].offset < m.sessions[u].length
    ensures Get(m, u).received == m.staging[u][..m.sessions[u].offset]
  {
    assert ViewOk(c, m, Get(m, u));
  }

  lemma BeginWriteEffect(c: Config, m: Machine, u: UploadId, chunk: Bytes)
    requires Quiet(c, m) && m.open && u in m.sessions && m.sessions[u].state.Active? && m.clock < m.sessions[u].expiresAt
    requires m.sessions[u].offset + |chunk| <= m.sessions[u].length
    ensures u in m.staging && m.sessions[u].offset <= |m.staging[u]| && m.sessions[u].offset < m.sessions[u].length
    ensures Get(m, u).received == m.staging[u][..m.sessions[u].offset]
    ensures Next(c, m, On(u, BeginWrite(chunk))) ==
            Updated(m, u, m.staging, m.sessions, map[u := Writing(chunk, m.clock + c.ttl)], Get(m, u).received)
  {
    assert ViewOk(c, m, Get(m, u));
    Same(m.staging, u);
    Same(m.sessions, u);
  }

  lemma SyncEffect(c: Config, m: Machine, u: UploadId, chunk: Bytes, expires: int)
    requires Running(c, m, u, Writing(chunk, expires))
    ensures u in m.sessions && u in m.staging && m.sessions[u].offset <= |m.staging[u]|
    ensures Next(c, m, On(u, Sync)) ==
            Updated(m, u, m.staging[u := m.staging[u][..m.sessions[u].offset] + chunk], m.sessions,
                    map[u := Written(chunk, expires)], Get(m, u).received)
  {
    assert ViewOk(c, m, Get(m, u));
    Same(m.sessions, u);
    Only(m.calls, u, Writing(chunk, expires));
  }

  lemma RejectEffect(c: Config, m: Machine, u: UploadId, chunk: Bytes, expires: int)
    requires Running(c, m, u, Written(chunk, expires))
    requires u in m.sessions && u in m.staging && m.sessions[u].offset + |chunk| == m.sessions[u].length
    requires Mismatch(c, m.sessions[u].expected, c.hash(m.staging[u]))
    ensures m.sessions[u].offset <= |m.staging[u]|
    ensures Next(c, m, On(u, Reject)) ==
            Updated(m, u, m.staging[u := m.staging[u][..m.sessions[u].offset]], m.sessions, map[], Get(m, u).received)
  {
    assert ViewOk(c, m, Get(m, u));
    Same(m.sessions, u);
    Only(m.calls, u, Written(chunk, expires));
  }

  lemma AdvanceEffect(c: Config, m: Machine, u: UploadId, chunk: Bytes, expires: int)
    requires Running(c, m, u, Written(chunk, expires)) && u in m.sessions && u in m.staging
    requires m.sessions[u].offset + |chunk| == m.sessions[u].length ==> !Mismatch(c, m.sessions[u].expected, c.hash(m.staging[u]))
    ensures m.sessions[u].state.Active?
    ensures Next(c, m, On(u, Advance)) ==
            (var s := m.sessions[u].(offset := m.sessions[u].offset + |chunk|, expiresAt := expires);
             Updated(m, u, m.staging, m.sessions[u := s],
                     if IsFull(s) then map[u := Hashed(c.hash(m.staging[u]))] else map[], Get(m, u).received + chunk))
  {
    assert ViewOk(c, m, Get(m, u));
    Same(m.staging, u);
    Only(m.calls, u, Written(chunk, expires));
  }

  lemma BeginEffect(c: Config, m: Machine, u: UploadId, id: ContentId)
    requires Running(c, m, u, Hashed(id))
    ensures u in m.sessions && u in m.staging && m.sessions[u].state.Active? && id == c.hash(Get(m, u).received)
    ensures Next(c, m, On(u, Begin)) ==
            Updated(m, u, m.staging, m.sessions[u := m.sessions[u].(state := Finalizing, finalId := Some(id))],
                    map[u := Publishing], Get(m, u).received)
  {
    assert ViewOk(c, m, Get(m, u));
    Same(m.staging, u);
    Only(m.calls, u, Hashed(id));
  }

  /** The digest already names a blob of another length. */
  predicate Clash(blobs: map<ContentId, Bytes>, id: ContentId, length: nat) { id in blobs && |blobs[id]| != length }

  /** A finalizing upload can be published if and only if its digest names no blob of another length. */
  lemma PublishEnabled(c: Config, m: Machine, u: UploadId)
    requires Running(c, m, u, Publishing)
    ensures u in m.sessions && m.sessions[u].state.Finalizing? && m.sessions[u].finalId == Some(c.hash(Get(m, u).received))
    ensures Enabled(c, m, Get(m, u), Publish) <==> !Clash(m.blobs, m.sessions[u].finalId.value, m.sessions[u].length)
    ensures m.sessions[u].finalId.value in m.blobs || (u in m.staging && m.staging[u] == Get(m, u).received)
    ensures |Get(m, u).received| == m.sessions[u].length
  {
    assert ViewOk(c, m, Get(m, u));
  }

  lemma AbandonEffect(c: Config, m: Machine, u: UploadId)
    requires Running(c, m, u, Publishing)
    ensures Next(c, m, On(u, Abandon)) == Updated(m, u, m.staging, m.sessions, map[], Get(m, u).received)
  {
    assert ViewOk(c, m, Get(m, u));
    Same(m.sessions, u);
    Only(m.calls, u, Publishing);
    if u in m.staging { Same(m.staging, u); } else { Absent(m.staging, u); }
  }

  lemma PublishEffect(c: Config, m: Machine, u: UploadId)
    requires Running(c, m, u, Publishing) && Enabled(c, m, Get(m, u), Publish) && u in m.sessions && m.sessions[u].finalId.Some?
    requires m.sessions[u].finalId.value in m.blobs || u in m.staging
    ensures Next(c, m, On(u, Publish)) ==
            (var id := m.sessions[u].finalId.value;
             Updated(m, u, m.staging - {u}, m.sessions, map[u := Installed], Get(m, u).received)
               .(blobs := if id in m.blobs then m.blobs else m.blobs[id := m.staging[u]]))
  {
    Same(m.sessions, u);
    Only(m.calls, u, Publishing);
  }

  lemma FinishEnabled(c: Config, m: Machine, u: UploadId)
    requires Running(c, m, u, Installed)
    ensures u in m.sessions && m.sessions[u].state.Finalizing? && m.sessions[u].finalId.Some? && u !in m.staging
    ensures
      var id := m.sessions[u].finalId.value;
      id in m.contents ==> m.contents[id] == m.sessions[u].length
    ensures Enabled(c, m, Get(m, u), Finish)
  {
    assert ViewOk(c, m, Get(m, u));
  }

  lemma FinishEffect(c: Config, m: Machine, u: UploadId)
    requires Running(c, m, u, Installed) && Enabled(c, m, Get(m, u), Finish) && u in m.sessions && m.sessions[u].finalId.Some?
    requires u !in m.staging
    ensures Next(c, m, On(u, Finish)) ==
            Updated(m, u, m.staging, m.sessions[u := m.sessions[u].(state := Complete)], map[], Get(m, u).received)
              .(contents := m.contents[m.sessions[u].finalId.value := m.sessions[u].length])
  {
    Absent(m.staging, u);
    Only(m.calls, u, Installed);
  }

  // ----- recovery -----

  lemma OrphanEffect(c: Config, m: Machine, u: UploadId)
    requires Quiet(c, m) && !m.open && u in m.staging && u !in m.sessions
    ensures Next(c, m, On(u, RemoveOrphan)) == Updated(m, u, m.staging - {u}, m.sessions, map[], Get(m, u).received)
  {
    Absent(m.sessions, u);
    Absent(m.calls, u);
  }

  lemma ResumeEffect(c: Config, m: Machine, u: UploadId)
    requires Quiet(c, m) && !m.open && u in m.sessions
    requires m.sessions[u].state.Finalizing? || (m.sessions[u].state.Active? && IsFull(m.sessions[u]))
    ensures m.sessions[u].state.Active? ==> u in m.staging && !Mismatch(c, m.sessions[u].expected, c.hash(m.staging[u]))
    ensures Next(c, m, On(u, Resume)) ==
            Updated(m, u, m.staging, m.sessions,
                    map[u := if m.sessions[u].state.Finalizing? then Publishing else Hashed(c.hash(m.staging[u]))],
                    Get(m, u).received)
  {
    assert ViewOk(c, m, Get(m, u));
    Same(m.sessions, u);
    if u in m.staging { Same(m.staging, u); } else { Absent(m.staging, u); }
  }

  lemma ExpireEffect(c: Config, m: Machine, u: UploadId)
    requires Quiet(c, m) && !m.open && u in m.sessions && m.sessions[u].expiresAt <= m.clock
    requires !m.sessions[u].state.Finalizing? && !(m.sessions[u].state.Active? && IsFull(m.sessions[u]))
    ensures Next(c, m, On(u, Expire)) == Updated(m, u, m.staging - {u}, m.sessions, map[u := Discarding], Get(m, u).received)
  {
    Same(m.sessions, u);
  }

  lemma ForgetEffect(c: Config, m: Machine, u: UploadId)
    requires Running(c, m, u, Discarding)
    ensures u !in m.staging
    ensures Next(c, m, On(u, Forget)) == Updated(m, u, m.staging, m.sessions - {u}, map[], Get(m, u).received)
  {
    assert ViewOk(c, m, Get(m, u));
    Absent(m.staging, u);
    Only(m.calls, u, Discarding);
  }
}
