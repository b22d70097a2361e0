/** The resumable blob store as a crash machine: files and metadata change in separate durable steps. */
module BlobMachine {
  import opened Wrappers
  import opened Operations

  type UploadId = nat
  type Byte = x: int | 0 <= x < 256
  type Bytes = seq<Byte>

  datatype UploadState = Active | Finalizing | Complete

  datatype Session = Session(
    length: nat,
    offset: nat,
    state: UploadState,
    expected: Option<ContentId>,
    finalId: Option<ContentId>,
    expiresAt: int)

  /** SHA-256 is left uninterpreted. */
  datatype Config = Config(hash: Bytes -> ContentId, maxBlobBytes: nat, ttl: nat)

  /** How far a running call has come on its upload; lost in a crash. */
  datatype Call =
    | Reserved(length: nat, expected: Option<ContentId>, expiresAt: int)
    | Writing(chunk: Bytes, expiresAt: int)
    | Written(chunk: Bytes, expiresAt: int)
    | Hashed(id: ContentId)
    | Publishing
    | Installed
    | Discarding

  /** `received` records the chunks the metadata has accepted; no code reads it. */
  datatype Machine = Machine(
    staging: map<UploadId, Bytes>,
    sessions: map<UploadId, Session>,
    calls: map<UploadId, Call>,
    received: map<UploadId, Bytes>,
    blobs: map<ContentId, Bytes>,
    contents: map<ContentId, nat>,
    clock: int,
    open: bool)

  const EMPTY_MACHINE: Machine := Machine(map[], map[], map[], map[], map[], map[], 0, false)

  /** Everything about one upload. */
  datatype View = View(session: Option<Session>, file: Option<Bytes>, call: Option<Call>, received: Bytes)

  function Lookup<K, V>(m: map<K, V>, k: K): Option<V> { if k in m then Some(m[k]) else None }

  function Store<K, V>(m: map<K, V>, k: K, v: Option<V>): map<K, V> { if v.Some? then m[k := v.value] else m - {k} }

  function Get(m: Machine, u: UploadId): View {
    View(Lookup(m.sessions, u), Lookup(m.staging, u), Lookup(m.calls, u), if u in m.received then m.received[u] else [])
  }

  function Put(m: Machine, u: UploadId, v: View): Machine {
    m.(sessions := Store(m.sessions, u, v.session), staging := Store(m.staging, u, v.file),
       calls := Store(m.calls, u, v.call), received := m.received[u := v.received])
  }

  // ----- steps of one upload -----

  datatype Event =
    | Reserve(length: nat, expected: Option<ContentId>)
    | Register
    | BeginWrite(chunk: Bytes)
    | TornWrite(tail: Bytes)
    | Sync
    | Reject
    | Advance
    | Begin
    | Publish
    | Abandon
    | Finish
    | RemoveOrphan
    | Resume
    | Expire
    | Forget

  predicate IsFull(s: Session) { s.offset == s.length }

  predicate Mismatch(c: Config, expected: Option<ContentId>, id: ContentId) { expected.Some? && expected.value != id }

  predicate ActiveFile(v: View) {
    v.session.Some? && v.session.value.state.Active? && v.file.Some? && v.session.value.offset <= |v.file.value|
  }

  predicate Enabled(c: Config, m: Machine, v: View, e: Event) {
    match e
    case Reserve(length, expected) =>
      && m.open && v.session.None? && v.file.None? && v.call.None? && length <= c.maxBlobBytes
      && !(length == 0 && Mismatch(c, expected, c.hash([])))
    case Register => v.call.Some? && v.call.value.Reserved? && v.file.Some?
    case BeginWrite(chunk) =>
      && m.open && v.call.None? && ActiveFile(v) && m.clock < v.session.value.expiresAt
      && v.session.value.offset + |chunk| <= v.session.value.length
    case TornWrite(tail) => v.call.Some? && v.call.value.Writing? && ActiveFile(v)
    case Sync => v.call.Some? && v.call.value.Writing? && ActiveFile(v)
    case Reject =>
      && v.call.Some? && v.call.value.Written? && ActiveFile(v)
      && v.session.value.offset + |v.call.value.chunk| == v.session.value.length
      && Mismatch(c, v.session.value.expected, c.hash(v.file.value))
    case Advance =>
      && v.call.Some? && v.call.value.Written? && ActiveFile(v)
      && (v.session.value.offset + |v.call.value.chunk| == v.session.value.length ==>
            !Mismatch(c, v.session.value.expected, c.hash(v.file.value)))
    case Begin => v.call.Some? && v.call.value.Hashed? && v.session.Some? && v.session.value.state.Active?
    case Publish =>
      && v.call.Some? && v.call.value.Publishing? && v.session.Some? && v.session.value.finalId.Some?
      && (var id := v.session.value.finalId.value;
          if id in m.blobs then |m.blobs[id]| == v.session.value.length && c.hash(m.blobs[id]) == id else v.file.Some?)
    case Abandon => v.call.Some? && v.call.value.Publishing?
    case Finish =>
      && v.call.Some? && v.call.value.Installed? && v.session.Some? && v.session.value.finalId.Some?
      && (var id := v.session.value.finalId.value; id in m.contents ==> m.contents[id] == v.session.value.length)
    case RemoveOrphan => !m.open && v.call.None? && v.session.None? && v.file.Some?
    case Resume =>
      && !m.open && v.call.None? && v.session.Some?
      && (v.session.value.state.Finalizing? || (v.session.value.state.Active? && IsFull(v.session.value) && v.file.Some?
            && !Mismatch(c, v.session.value.expected, c.hash(v.file.value))))
    case Expire =>
      && !m.open && v.call.None? && v.session.Some? && v.session.value.expiresAt <= m.clock
      && !v.session.value.state.Finalizing? && !(v.session.value.state.Active? && IsFull(v.session.value))
    case Forget => v.call.Some? && v.call.value.Discarding?
  }

  function StepView(c: Config, m: Machine, v: View, e: Event): View
    requires Enabled(c, m, v, e)
  {
    match e
    case Reserve(length, expected) => v.(file := Some([]), call := Some(Reserved(length, expected, m.clock + c.ttl)))
    case Register =>
      var r := v.call.value;
      v.(session := Some(Session(r.length, 0, Active, r.expected, None, r.expiresAt)), received := [],
         call := if r.length == 0 then Some(Hashed(c.hash(v.file.value))) else None)
    case BeginWrite(chunk) => v.(call := Some(Writing(chunk, m.clock + c.ttl)))
    case TornWrite(tail) => v.(file := Some(v.file.value[..v.session.value.offset] + tail))
    case Sync =>
      v.(file := Some(v.file.value[..v.session.value.offset] + v.call.value.chunk),
         call := Some(Written(v.call.value.chunk, v.call.value.expiresAt)))
    case Reject => v.(file := Some(v.file.value[..v.session.value.offset]), call := None)
    case Advance =>
      var offset := v.session.value.offset + |v.call.value.chunk|;
      v.(session := Some(v.session.value.(offset := offset, expiresAt := v.call.value.expiresAt)),
         received := v.received + v.call.value.chunk,
         call := if offset == v.session.value.length then Some(Hashed(c.hash(v.file.value))) else None)
    case Begin =>
      v.(session := Some(v.session.value.(state := Finalizing, finalId := Some(v.call.value.id))), call := Some(Publishing))
    case Publish => v.(file := None, call := Some(Installed))
    case Abandon => v.(call := None)
    case Finish => v.(session := Some(v.session.value.(state := Complete)), call := None)
    case RemoveOrphan => v.(file := None)
    case Resume =>
      v.(call := Some(if v.session.value.state.Finalizing? then Publishing else Hashed(c.hash(v.file.value))))
    case Expire => v.(file := None, call := Some(Discarding))
    case Forget => v.(session := None, call := None)
  }

  function StepBlobs(c: Config, m: Machine, v: View, e: Event): map<ContentId, Bytes>
    requires Enabled(c, m, v, e)
  {
    if e.Publish? && v.session.value.finalId.value !in m.blobs then m.blobs[v.session.value.finalId.value := v.file.value]
    else m.blobs
  }

  function StepContents(c: Config, m: Machine, v: View, e: Event): map<ContentId, nat>
    requires Enabled(c, m, v, e)
  {
    if e.Finish? then m.contents[v.session.value.finalId.value := v.session.value.length] else m.contents
  }

  datatype Step =
    | On(upload: UploadId, event: Event)
    | Tick(now: int)
    | Crash
    | Open

  /** Nothing is left for recovery to do. */
  ghost predicate Recovered(m: Machine) {
    && m.calls == map[]
    && (forall u | u in m.staging :: u in m.sessions)
    && (forall u | u in m.sessions ::
          !m.sessions[u].state.Finalizing? && !(m.sessions[u].state.Active? && IsFull(m.sessions[u])))
  }

  ghost function Next(c: Config, m: Machine, step: Step): Machine {
    match step
    case On(u, e) =>
      var v := Get(m, u);
      if Enabled(c, m, v, e) then
        Put(m, u, StepView(c, m, v, e)).(blobs := StepBlobs(c, m, v, e), contents := StepContents(c, m, v, e))
      else m
    case Tick(now) => if m.clock <= now then m.(clock := now) else m
    case Crash => m.(calls := map[], open := false)
    case Open => if Recovered(m) then m.(open := true) else m
  }

  ghost function Run(c: Config, m: Machine, steps: seq<Step>): Machine
    decreases |steps|
  {
    if steps == [] then m else Run(c, Next(c, m, steps[0]), steps[1..])
  }

  // ----- invariant -----

  ghost predicate SessionOk(c: Config, m: Machine, v: View) {
    v.session.Some? ==>
      var s := v.session.value;
      && s.offset <= s.length
      && match s.state
         case Active =>
           && s.finalId.None?
           && if v.file.Some? then
                && s.offset <= |v.file.value| && v.received == v.file.value[..s.offset]
                && (IsFull(s) ==> v.file.value == v.received && !Mismatch(c, s.expected, c.hash(v.received)))
              else s.expiresAt <= m.clock && !IsFull(s)
         case Finalizing =>
           && IsFull(s) && s.finalId == Some(c.hash(v.received)) && |v.received| == s.length
           && (|| v.file == Some(v.received)
               || (v.file.None? && c.hash(v.received) in m.blobs && |m.blobs[c.hash(v.received)]| == s.length))
         case Complete =>
           && v.file.None? && s.finalId == Some(c.hash(v.received)) && |v.received| == s.length
           && c.hash(v.received) in m.contents
  }

  ghost predicate CallOk(c: Config, v: View) {
    v.call.Some? ==>
      match v.call.value
      case Reserved(length, expected, _) =>
        v.session.None? && v.file == Some([]) && !(length == 0 && Mismatch(c, expected, c.hash([])))
      case Writing(chunk, _) => ActiveFile(v) && !IsFull(v.session.value) && v.session.value.offset + |chunk| <= v.session.value.length
      case Written(chunk, _) =>
        && ActiveFile(v) && v.session.value.offset + |chunk| <= v.session.value.length && !IsFull(v.session.value)
        && v.file.value == v.received + chunk
      case Hashed(id) => ActiveFile(v) && IsFull(v.session.value) && id == c.hash(v.received)
      case Publishing => v.session.Some? && v.session.value.state.Finalizing?
      case Installed => v.session.Some? && v.session.value.state.Finalizing? && v.file.None?
      case Discarding => v.session.Some? && !v.session.value.state.Finalizing? && v.file.None?
  }

  /** While the store serves, a file without a session and a fully received active upload are in some call's hands. */
  ghost predicate Attended(v: View) {
    && (v.session.None? && v.file.Some? ==> v.call.Some? && v.call.value.Reserved?)
    && (v.session.Some? && v.session.value.state.Active? && IsFull(v.session.value) ==> v.call.Some? && v.call.value.Hashed?)
  }

  ghost predicate ViewOk(c: Config, m: Machine, v: View) {
    SessionOk(c, m, v) && CallOk(c, v) && (m.open ==> Attended(v))
  }

  /** Every blob hashes to its name, and every descriptor has a blob of its length. */
  ghost predicate ContentsOk(c: Config, m: Machine) {
    && (forall id | id in m.blobs :: c.hash(m.blobs[id]) == id)
    && (forall id | id in m.contents :: id in m.blobs && |m.blobs[id]| == m.contents[id])
  }

  ghost predicate MachineInv(c: Config, m: Machine) { ContentsOk(c, m) && forall u :: ViewOk(c, m, Get(m, u)) }

  lemma GetPut(m: Machine, u: UploadId, v: View, w: UploadId)
    ensures Get(Put(m, u, v), w) == if w == u then v else Get(m, w)
  {
  }

  /** What one upload needs of the rest only grows. */
  ghost predicate Grows(m: Machine, next: Machine) {
    && (forall id | id in m.blobs :: id in next.blobs && next.blobs[id] == m.blobs[id])
    && (forall id | id in m.contents :: id in next.contents)
    && m.clock <= next.clock && (next.open ==> m.open)
  }

  lemma ViewOkGrows(c: Config, m: Machine, next: Machine, v: View)
    requires ViewOk(c, m, v) && Grows(m, next)
    ensures ViewOk(c, next, v)
  {
  }

  lemma UploadStepKeepsView(c: Config, m: Machine, v: View, e: Event)
    requires ViewOk(c, m, v) && Enabled(c, m, v, e) && !e.Publish? && !e.Finish?
    ensures ViewOk(c, m, StepView(c, m, v, e))
  {
  }

  lemma PublishKeeps(c: Config, m: Machine, v: View, next: Machine)
    requires ContentsOk(c, m) && ViewOk(c, m, v) && Enabled(c, m, v, Publish)
    requires next == m.(blobs := StepBlobs(c, m, v, Publish))
    ensures ContentsOk(c, next) && Grows(m, next) && ViewOk(c, next, StepView(c, m, v, Publish))
  {
  }

  lemma FinishKeeps(c: Config, m: Machine, v: View, next: Machine)
    requires ContentsOk(c, m) && ViewOk(c, m, v) && Enabled(c, m, v, Finish)
    requires next == m.(contents := StepContents(c, m, v, Finish))
    ensures ContentsOk(c, next) && Grows(m, next) && ViewOk(c, next, StepView(c, m, v, Finish))
  {
    assert |m.blobs[v.session.value.finalId.value]| == |v.received|;
  }

  /** Replacing one upload's view by a good one keeps the invariant. */
  lemma PutKeepsInv(c: Config, m: Machine, rest: Machine, u: UploadId, v: View)
    requires forall w :: ViewOk(c, m, Get(m, w))
    requires rest == m.(blobs := rest.blobs, contents := rest.contents) && Grows(m, rest)
    requires ContentsOk(c, rest) && ViewOk(c, rest, v)
    ensures MachineInv(c, Put(rest, u, v))
  {
    var next := Put(rest, u, v);
    forall w ensures ViewOk(c, next, Get(next, w)) {
      GetPut(rest, u, v, w);
      if w == u {
        ViewOkGrows(c, rest, next, v);
      } else {
        assert Get(next, w) == Get(m, w);
        ViewOkGrows(c, m, next, Get(m, w));
      }
    }
  }

  lemma EventKeepsInv(c: Config, m: Machine, u: UploadId, e: Event)
    requires MachineInv(c, m) && Enabled(c, m, Get(m, u), e)
    ensures MachineInv(c, Next(c, m, On(u, e)))
  {
    var v := Get(m, u);
    var rest := m.(blobs := StepBlobs(c, m, v, e), contents := StepContents(c, m, v, e));
    assert ViewOk(c, m, v);
    EventKeepsView(c, m, v, e, rest);
    PutKeepsInv(c, m, rest, u, StepView(c, m, v, e));
    assert Next(c, m, On(u, e)) == Put(rest, u, StepView(c, m, v, e));
  }

  lemma EventKeepsView(c: Config, m: Machine, v: View, e: Event, rest: Machine)
    requires ContentsOk(c, m) && ViewOk(c, m, v) && Enabled(c, m, v, e)
    requires rest == m.(blobs := StepBlobs(c, m, v, e), contents := StepContents(c, m, v, e))
    ensures ContentsOk(c, rest) && Grows(m, rest) && ViewOk(c, rest, StepView(c, m, v, e))
  {
    if e.Publish? {
      PublishKeeps(c, m, v, rest);
    } else if e.Finish? {
      FinishKeeps(c, m, v, rest);
    } else {
      UploadStepKeepsView(c, m, v, e);
    }
  }

  lemma CrashKeepsInv(c: Config, m: Machine)
    requires MachineInv(c, m)
    ensures MachineInv(c, Next(c, m, Crash))
  {
    forall u ensures ViewOk(c, Next(c, m, Crash), Get(Next(c, m, Crash), u)) {
      assert Get(Next(c, m, Crash), u) == Get(m, u).(call := None);
      assert ViewOk(c, m, Get(m, u));
    }
  }

  lemma LaterKeepsInv(c: Config, m: Machine, now: int)
    requires MachineInv(c, m) && m.clock <= now
    ensures MachineInv(c, m.(clock := now))
  {
    var next := m.(clock := now);
    forall u ensures ViewOk(c, next, Get(next, u)) { ViewLater(c, m, now, u); }
  }

  lemma ViewLater(c: Config, m: Machine, now: int, u: UploadId)
    requires ViewOk(c, m, Get(m, u)) && m.clock <= now
    ensures ViewOk(c, m.(clock := now), Get(m.(clock := now), u))
  {
    assert Get(m.(clock := now), u) == Get(m, u);
    ViewOkGrows(c, m, m.(clock := now), Get(m, u));
  }

  lemma OpenKeepsInv(c: Config, m: Machine)
    requires MachineInv(c, m) && Recovered(m)
    ensures MachineInv(c, m.(open := true))
  {
    forall u ensures ViewOk(c, m.(open := true), Get(m.(open := true), u)) {
      assert ViewOk(c, m, Get(m, u));
    }
  }

  lemma NextKeepsInv(c: Config, m: Machine, step: Step)
    requires MachineInv(c, m)
    ensures MachineInv(c, Next(c, m, step))
  {
    match step
    case On(u, e) => if Enabled(c, m, Get(m, u), e) { EventKeepsInv(c, m, u, e); }
    case Tick(now) => if m.clock <= now { LaterKeepsInv(c, m, now); }
    case Crash => CrashKeepsInv(c, m);
    case Open => if Recovered(m) { OpenKeepsInv(c, m); }
  }

  lemma {:induction false} RunKeepsInv(c: Config, m: Machine, steps: seq<Step>)
    requires MachineInv(c, m)
    ensures MachineInv(c, Run(c, m, steps))
    decreases |steps|
  {
    if steps != [] {
      NextKeepsInv(c, m, steps[0]);
      RunKeepsInv(c, Next(c, m, steps[0]), steps[1..]);
    }
  }

  lemma EmptyIsInv(c: Config)
    ensures MachineInv(c, EMPTY_MACHINE)
  {
  }

  /** After any interleaving of uploads, torn writes, crashes and recoveries: every descriptor has a blob of its length
      hashing to its id, and a completed or finalizing upload is named by the digest of exactly its accepted chunks. */
  lemma ContentIsAlwaysBacked(c: Config, steps: seq<Step>, id: ContentId, u: UploadId)
    ensures
      var m := Run(c, EMPTY_MACHINE, steps);
      && (id in m.contents ==> id in m.blobs && |m.blobs[id]| == m.contents[id] && c.hash(m.blobs[id]) == id)
      && (u in m.sessions && !m.sessions[u].state.Active? ==>
            m.sessions[u].finalId == Some(c.hash(Get(m, u).received)) && |Get(m, u).received| == m.sessions[u].length)
      && (u in m.sessions && m.sessions[u].state.Complete? ==> m.sessions[u].finalId.value in m.contents)
  {
    EmptyIsInv(c);
    RunKeepsInv(c, EMPTY_MACHINE, steps);
    var m := Run(c, EMPTY_MACHINE, steps);
    assert ViewOk(c, m, Get(m, u));
  }
}
