/** Uploads to a device: chunks, checksums, commits and closings, from any number of requests at once. */
module UploadModel {
  import opened JsNumbers
  import opened Wrappers

  type Client = string
  type SessionId = nat
  type UploadId = nat
  type Digest = seq<byte>

  const MAX_FILE_SIZE: int := 2147483648
  const MAX_CHUNK: int := 65536

  datatype Session = Session(client: Client, cancelled: bool, upload: Option<UploadId>)

  /** An upload: what was declared, what is in the staged file, and what the hash has absorbed. */
  datatype Upload = Upload(
    session: SessionId, path: string, size: int, checksum: Digest, install: bool,
    content: seq<byte>, absorbed: seq<byte>, uploaded: int, finishing: bool)

  /** What is left to do for an upload once it is finished: commit it if it was good, then forget it. */
  datatype Ending = Committing(good: bool) | Clearing(good: bool) | Over

  datatype Commit = Commit(upload: UploadId, content: seq<byte>)

  datatype Ack = Ack(upload: UploadId, uploaded: int, finished: bool, success: bool)

  datatype Manager = Manager(
    closed: bool,
    sessions: map<Client, SessionId>,
    objects: seq<Session>,
    uploads: seq<Upload>,
    endings: map<UploadId, Ending>,
    committed: seq<Commit>,
    acks: seq<Ack>,
    installs: seq<UploadId>)

  const NEW := Manager(false, map[], [], [], map[], [], [], [])

  // ---------------------------------------------------------------- sessions

  function Open(m: Manager, c: Client): Manager {
    if m.closed || c in m.sessions then m
    else m.(sessions := m.sessions[c := |m.objects|], objects := m.objects + [Session(c, false, None)])
  }

  function Cancelled(s: seq<Session>, i: nat): seq<Session> {
    if i < |s| then s[i := s[i].(cancelled := true)] else s
  }

  function CloseClient(m: Manager, c: Client): Manager {
    if c !in m.sessions then m
    else m.(objects := Cancelled(m.objects, m.sessions[c]), sessions := m.sessions - {c})
  }

  function Close(m: Manager): Manager {
    m.(closed := true, sessions := map[],
       objects := seq(|m.objects|, i requires 0 <= i < |m.objects| =>
         if i in m.sessions.Values then m.objects[i].(cancelled := true) else m.objects[i]))
  }

  // ---------------------------------------------------------------- uploads

  datatype Request = Request(path: string, size: int, checksum: Option<Digest>, install: bool)

  /** A file of a declared size of at most two gibibytes, with a checksum of the right length. */
  predicate Acceptable(r: Request) {
    0 <= r.size <= MAX_FILE_SIZE && r.checksum.Some? && |r.checksum.value| == 32
  }

  /** The session a command was received in still is its client's, open and without an upload. */
  predicate CanStart(m: Manager, c: Client, s: SessionId) {
    c in m.sessions && m.sessions[c] == s && s < |m.objects| && !m.objects[s].cancelled && m.objects[s].upload.None?
  }

  function StartUpload(m: Manager, c: Client, s: SessionId, r: Request): Manager {
    if !Acceptable(r) || !CanStart(m, c, s) then m
    else
      m.(uploads := m.uploads + [Upload(s, r.path, r.size, r.checksum.value, r.install, [], [], 0, false)],
         objects := m.objects[s := m.objects[s].(upload := Some(|m.uploads|))])
  }

  /** What the device did with a chunk: how many bytes it wrote, and whether writing and syncing worked. */
  datatype Outcome = Outcome(count: nat, written: bool, synced: bool)

  /** The upload a chunk of a client goes to. */
  function TargetOf(m: Manager, c: Client): Option<UploadId> {
    if c !in m.sessions || m.sessions[c] >= |m.objects| then None else m.objects[m.sessions[c]].upload
  }

  predicate TooMuch(u: Upload, data: seq<byte>) {
    |data| > MAX_CHUNK || u.uploaded + |data| > u.size
  }

  function Count(data: seq<byte>, o: Outcome): (n: nat)
    ensures n <= |data|
  {
    if o.count < |data| then o.count else |data|
  }

  function Accepted(u: Upload, data: seq<byte>, o: Outcome): Upload {
    if TooMuch(u, data) then u
    else
      var n := Count(data, o);
      u.(content := u.content + data[..n], absorbed := u.absorbed + data[..n], uploaded := u.uploaded + n)
  }

  predicate Wrote(u: Upload, data: seq<byte>, o: Outcome) {
    !TooMuch(u, data) && o.written && Count(data, o) == |data|
  }

  function Chunk(m: Manager, hash: seq<byte> -> Digest, c: Client, data: seq<byte>, o: Outcome): Manager {
    if TargetOf(m, c).None? || TargetOf(m, c).value >= |m.uploads| then m
    else
      var id := TargetOf(m, c).value;
      var u := m.uploads[id];
      if u.finishing then m
      else
        var v := Accepted(u, data, o);
        if !Wrote(u, data, o) || v.uploaded == v.size then
          var good := Wrote(u, data, o) && hash(v.absorbed) == v.checksum && o.synced;
          m.(uploads := m.uploads[id := v.(finishing := true)], endings := m.endings[id := Committing(good)])
        else
          m.(uploads := m.uploads[id := v], acks := m.acks + [Ack(id, v.uploaded, false, true)])
  }

  /** The commit of a finished upload, outside the lock: attempted if it was good, and then it may fail. */
  function CommitStep(m: Manager, id: UploadId, succeeds: bool): Manager {
    if id !in m.endings || !m.endings[id].Committing? || id >= |m.uploads| then m
    else
      var done := m.endings[id].good && succeeds;
      m.(endings := m.endings[id := Clearing(done)],
         committed := if done then m.committed + [Commit(id, m.uploads[id].content)] else m.committed)
  }

  /** The finished upload leaves its session, and its outcome is reported. */
  function ClearStep(m: Manager, id: UploadId): Manager {
    if id !in m.endings || !m.endings[id].Clearing? || id >= |m.uploads| then m
    else
      var u, good := m.uploads[id], m.endings[id].good;
      m.(endings := m.endings[id := Over],
         objects := if u.session < |m.objects| && m.objects[u.session].upload == Some(id) then
                      m.objects[u.session := m.objects[u.session].(upload := None)] else m.objects,
         acks := m.acks + [Ack(id, u.uploaded, true, good)],
         installs := if good && u.install then m.installs + [id] else m.installs)
  }

  datatype Event =
    | OpenCall(c: Client)
    | CloseClientCall(c: Client)
    | CloseCall
    | StartCall(c: Client, s: SessionId, request: Request)
    | ChunkCall(c: Client, data: seq<byte>, outcome: Outcome)
    | CommitFile(id: UploadId, succeeds: bool)
    | ClearUpload(id: UploadId)

  function Step(m: Manager, hash: seq<byte> -> Digest, e: Event): Manager {
    match e
    case OpenCall(c) => Open(m, c)
    case CloseClientCall(c) => CloseClient(m, c)
    case CloseCall => Close(m)
    case StartCall(c, s, r) => StartUpload(m, c, s, r)
    case ChunkCall(c, data, o) => Chunk(m, hash, c, data, o)
    case CommitFile(id, succeeds) => CommitStep(m, id, succeeds)
    case ClearUpload(id) => ClearStep(m, id)
  }

  function Run(hash: seq<byte> -> Digest, events: seq<Event>): Manager {
    if events == [] then NEW else Step(Run(hash, events[..|events| - 1]), hash, events[|events| - 1])
  }
}
