/** What is committed is what was declared, once, and not after its session was closed. */
module UploadSafety {
  import opened JsNumbers
  import opened Wrappers
  import opened UploadModel

  // ---------------------------------------------------------------- the invariant

  /** Clients' sessions are open objects of their own, and every upload belongs to the session that holds it. */
  predicate SessionsFit(m: Manager) {
    (forall c | c in m.sessions :: m.sessions[c] < |m.objects| && m.objects[m.sessions[c]].client == c
       && !m.objects[m.sessions[c]].cancelled)
    && (forall s | 0 <= s < |m.objects| && m.objects[s].upload.Some? ::
          m.objects[s].upload.value < |m.uploads| && m.uploads[m.objects[s].upload.value].session == s)
  }

  /** Progress is what is in the file and in the hash, and never more than declared. */
  predicate UploadFits(u: Upload) {
    u.content == u.absorbed && u.uploaded == |u.content| <= u.size <= MAX_FILE_SIZE
  }

  predicate GoodFile(hash: seq<byte> -> Digest, u: Upload) {
    u.finishing && |u.content| == u.size && hash(u.content) == u.checksum
  }

  predicate EndingFits(hash: seq<byte> -> Digest, m: Manager, id: UploadId)
    requires id in m.endings
  {
    id < |m.uploads| && m.uploads[id].finishing
    && (m.endings[id] == Committing(true) ==> GoodFile(hash, m.uploads[id]))
    && (m.endings[id] == Clearing(true) ==> exists k :: 0 <= k < |m.committed| && m.committed[k].upload == id)
  }

  /** A commit is of a good file, as it still is. */
  predicate CommitFits(hash: seq<byte> -> Digest, m: Manager, k: nat)
    requires k < |m.committed|
  {
    var id := m.committed[k].upload;
    id < |m.uploads| && GoodFile(hash, m.uploads[id]) && m.committed[k].content == m.uploads[id].content
    && id in m.endings && !m.endings[id].Committing?
  }

  predicate Once(committed: seq<Commit>) {
    forall k, l | 0 <= k < l < |committed| :: committed[k].upload != committed[l].upload
  }

  predicate WasCommitted(m: Manager, id: UploadId) {
    exists k :: 0 <= k < |m.committed| && m.committed[k].upload == id
  }

  predicate AckFits(m: Manager, a: Ack) {
    a.upload < |m.uploads| && 0 <= a.uploaded <= m.uploads[a.upload].size
    && (a.finished && a.success ==> WasCommitted(m, a.upload))
  }

  predicate Finished(m: Manager) {
    forall id | 0 <= id < |m.uploads| && m.uploads[id].finishing :: id in m.endings
  }

  predicate Safe(hash: seq<byte> -> Digest, m: Manager) {
    && SessionsFit(m) && Once(m.committed) && Finished(m)
    && (forall id | 0 <= id < |m.uploads| :: UploadFits(m.uploads[id]))
    && (forall id | id in m.endings :: EndingFits(hash, m, id))
    && (forall k | 0 <= k < |m.committed| :: CommitFits(hash, m, k))
    && (forall a | a in m.acks :: AckFits(m, a))
    && (forall id | id in m.installs :: WasCommitted(m, id))
  }

  // ---------------------------------------------------------------- steps on sessions

  /** Steps that touch only sessions keep what is said about uploads. */
  lemma UploadsKept(hash: seq<byte> -> Digest, m: Manager, r: Manager)
    requires Safe(hash, m) && SessionsFit(r)
    requires r.uploads == m.uploads && r.endings == m.endings && r.committed == m.committed && r.acks == m.acks
    requires r.installs == m.installs
    ensures Safe(hash, r)
  {
    hide SessionsFit, GoodFile, UploadFits;
    forall id | id in r.endings ensures EndingFits(hash, r, id) { assert EndingFits(hash, m, id); }
    forall k | 0 <= k < |r.committed| ensures CommitFits(hash, r, k) { assert CommitFits(hash, m, k); }
    forall a | a in r.acks ensures AckFits(r, a) { assert AckFits(m, a); }
    forall id | id in r.installs ensures WasCommitted(r, id) { assert WasCommitted(m, id); }
  }

  lemma SessionStepsKeep(m: Manager, c: Client)
    requires SessionsFit(m)
    ensures SessionsFit(Open(m, c)) && SessionsFit(CloseClient(m, c))
  {
  }

  lemma CloseKeeps(m: Manager)
    requires SessionsFit(m)
    ensures SessionsFit(Close(m))
  {
    var r := Close(m);
    forall s | 0 <= s < |r.objects| && r.objects[s].upload.Some?
      ensures r.objects[s].upload.value < |r.uploads| && r.uploads[r.objects[s].upload.value].session == s
    {
      assert r.objects[s].upload == m.objects[s].upload;
    }
  }

  lemma StartKeeps(hash: seq<byte> -> Digest, m: Manager, c: Client, s: SessionId, request: Request)
    requires Safe(hash, m)
    ensures Safe(hash, StartUpload(m, c, s, request))
  {
    var r := StartUpload(m, c, s, request);
    if Acceptable(request) && CanStart(m, c, s) {
      hide GoodFile;
      forall id | id in r.endings ensures EndingFits(hash, r, id) { assert EndingFits(hash, m, id); }
      forall k | 0 <= k < |r.committed| ensures CommitFits(hash, r, k) { assert CommitFits(hash, m, k); }
      forall a | a in r.acks ensures AckFits(r, a) { assert AckFits(m, a); }
      forall id | id in r.installs ensures WasCommitted(r, id) { assert WasCommitted(m, id); }
    }
  }

  // ---------------------------------------------------------------- chunks

  lemma AcceptedFits(u: Upload, data: seq<byte>, o: Outcome)
    requires UploadFits(u)
    ensures UploadFits(Accepted(u, data, o)) && Accepted(u, data, o).size == u.size
    ensures Accepted(u, data, o).session == u.session && Accepted(u, data, o).checksum == u.checksum
    ensures Accepted(u, data, o).uploaded >= u.uploaded
  {
  }

  /** Replacing an upload that was not finishing by a later form of it. */
  lemma LaterForm(hash: seq<byte> -> Digest, m: Manager, r: Manager, id: UploadId, v: Upload)
    requires Safe(hash, m) && id < |m.uploads| && !m.uploads[id].finishing
    requires r.uploads == m.uploads[id := v] && r.sessions == m.sessions && r.objects == m.objects
    requires r.committed == m.committed && r.installs == m.installs
    requires UploadFits(v) && v.session == m.uploads[id].session && v.size == m.uploads[id].size
    requires if v.finishing then r.endings.Keys == m.endings.Keys + {id} && r.acks == m.acks
             else r.endings == m.endings && r.acks == m.acks + [Ack(id, v.uploaded, false, true)]
    requires forall j | j in m.endings :: r.endings[j] == m.endings[j]
    requires v.finishing ==> r.endings[id] == Committing(GoodFile(hash, v)) || r.endings[id] == Committing(false)
    ensures Safe(hash, r)
  {
    hide GoodFile, UploadFits;
    NotEnding(hash, m, id);
    forall j | j in r.endings ensures EndingFits(hash, r, j) {
      if j != id { assert EndingFits(hash, m, j); }
    }
    forall k | 0 <= k < |r.committed| ensures CommitFits(hash, r, k) { assert CommitFits(hash, m, k); }
    forall a | a in r.acks ensures AckFits(r, a) {
      if a in m.acks { assert AckFits(m, a); } else { FitsBounds(v); }
    }
    forall j | j in r.installs ensures WasCommitted(r, j) { assert WasCommitted(m, j); }
  }

  lemma FitsBounds(u: Upload)
    requires UploadFits(u)
    ensures 0 <= u.uploaded <= u.size
  {
  }

  lemma ChunkKeeps(hash: seq<byte> -> Digest, m: Manager, c: Client, data: seq<byte>, o: Outcome)
    requires Safe(hash, m)
    ensures Safe(hash, Chunk(m, hash, c, data, o))
  {
    hide SessionsFit, EndingFits, CommitFits, AckFits, Accepted, Finished, Once, TargetOf;
    var target := TargetOf(m, c);
    if target.Some? && target.value < |m.uploads| && !m.uploads[target.value].finishing {
      var id := target.value;
      var u := m.uploads[id];
      var v := Accepted(u, data, o);
      AcceptedFits(u, data, o);
      NotFinishing(u, data, o);
      NotEnding(hash, m, id);
      var r := Chunk(m, hash, c, data, o);
      LaterForm(hash, m, r, id, r.uploads[id]);
    }
  }

  lemma NotEnding(hash: seq<byte> -> Digest, m: Manager, id: UploadId)
    requires Safe(hash, m) && id < |m.uploads| && !m.uploads[id].finishing
    ensures id !in m.endings
  {
    assert id in m.endings ==> EndingFits(hash, m, id);
  }

  lemma NotFinishing(u: Upload, data: seq<byte>, o: Outcome)
    ensures Accepted(u, data, o).finishing == u.finishing
  {
  }

  // ---------------------------------------------------------------- commits

  lemma CommitKeeps(hash: seq<byte> -> Digest, m: Manager, id: UploadId, succeeds: bool)
    requires Safe(hash, m)
    ensures Safe(hash, CommitStep(m, id, succeeds))
  {
    hide GoodFile, UploadFits;
    var r := CommitStep(m, id, succeeds);
    assert SessionsFit(r);
    hide SessionsFit;
    if id in m.endings && m.endings[id].Committing? && id < |m.uploads| {
      assert EndingFits(hash, m, id);
      assert forall k | 0 <= k < |m.committed| :: m.committed[k].upload != id by {
        forall k | 0 <= k < |m.committed| ensures m.committed[k].upload != id { assert CommitFits(hash, m, k); }
      }
      assert forall k | 0 <= k < |m.committed| :: r.committed[k] == m.committed[k];
      CommittedKept(m, r);
      forall j | j in r.endings ensures EndingFits(hash, r, j) {
        assert EndingFits(hash, m, j);
        if r.endings[j] == Clearing(true) && j != id { assert WasCommitted(m, j); }
        if r.endings[j] == Clearing(true) && j == id { assert r.committed[|m.committed|].upload == j; }
      }
      forall k | 0 <= k < |r.committed| ensures CommitFits(hash, r, k) {
        if k < |m.committed| { assert CommitFits(hash, m, k); }
      }
      forall a | a in r.acks ensures AckFits(r, a) { assert AckFits(m, a); }
    }
  }

  lemma CommittedKept(m: Manager, r: Manager)
    requires |m.committed| <= |r.committed| && forall k | 0 <= k < |m.committed| :: r.committed[k] == m.committed[k]
    ensures forall id | WasCommitted(m, id) :: WasCommitted(r, id)
  {
    forall id | WasCommitted(m, id) ensures WasCommitted(r, id) {
      var k :| 0 <= k < |m.committed| && m.committed[k].upload == id;
      assert r.committed[k].upload == id;
    }
  }

  lemma ClearKeeps(hash: seq<byte> -> Digest, m: Manager, id: UploadId)
    requires Safe(hash, m)
    ensures Safe(hash, ClearStep(m, id))
  {
    hide GoodFile, UploadFits;
    var r := ClearStep(m, id);
    if id in m.endings && m.endings[id].Clearing? && id < |m.uploads| {
      assert EndingFits(hash, m, id);
      CommittedKept(m, r);
      assert UploadFits(m.uploads[id]);
      FitsBounds(m.uploads[id]);
      assert m.endings[id].good ==> WasCommitted(m, id);
      assert SessionsFit(r);
      hide SessionsFit;
      forall j | j in r.endings ensures EndingFits(hash, r, j) { assert EndingFits(hash, m, j); }
      forall k | 0 <= k < |r.committed| ensures CommitFits(hash, r, k) { assert CommitFits(hash, m, k); }
      forall a | a in r.acks ensures AckFits(r, a) {
        if a in m.acks { assert AckFits(m, a); }
      }
    }
  }

  lemma StepSafe(hash: seq<byte> -> Digest, m: Manager, e: Event)
    requires Safe(hash, m)
    ensures Safe(hash, Step(m, hash, e))
  {
    match e
    case OpenCall(c) => SessionStepSafe(hash, m, e);
    case CloseClientCall(c) => SessionStepSafe(hash, m, e);
    case CloseCall => SessionStepSafe(hash, m, e);
    case StartCall(c, s, r) => hide Safe; StartKeeps(hash, m, c, s, r);
    case ChunkCall(c, data, o) => hide Safe; ChunkKeeps(hash, m, c, data, o);
    case CommitFile(id, succeeds) => hide Safe; CommitKeeps(hash, m, id, succeeds);
    case ClearUpload(id) => hide Safe; ClearKeeps(hash, m, id);
  }

  lemma SessionStepSafe(hash: seq<byte> -> Digest, m: Manager, e: Event)
    requires Safe(hash, m) && (e.OpenCall? || e.CloseClientCall? || e.CloseCall?)
    ensures Safe(hash, Step(m, hash, e))
  {
    hide SessionsFit, EndingFits, CommitFits, AckFits, UploadFits;
    if e.CloseCall? { CloseKeeps(m); } else { SessionStepsKeep(m, e.c); }
    UploadsKept(hash, m, Step(m, hash, e));
  }

  lemma {:induction false} RunSafe(hash: seq<byte> -> Digest, events: seq<Event>)
    ensures Safe(hash, Run(hash, events))
  {
    hide Step;
    if events != [] {
      hide Safe;
      RunSafe(hash, events[..|events| - 1]);
      StepSafe(hash, Run(hash, events[..|events| - 1]), events[|events| - 1]);
    }
  }

  // ---------------------------------------------------------------- the theorems

  /** Every commit is of exactly the declared number of bytes with the declared digest, and none is made twice. */
  lemma CommitsAreExactAndSingle(hash: seq<byte> -> Digest, events: seq<Event>, k: nat)
    requires k < |Run(hash, events).committed|
    ensures
      var m := Run(hash, events);
      var commit := m.committed[k];
      && commit.upload < |m.uploads|
      && |commit.content| == m.uploads[commit.upload].size && hash(commit.content) == m.uploads[commit.upload].checksum
      && forall l | 0 <= l < |m.committed| && l != k :: m.committed[l].upload != commit.upload
  {
    hide Run, SessionsFit;
    RunSafe(hash, events);
    assert CommitFits(hash, Run(hash, events), k);
  }

  /** Reported progress never exceeds the declared size; a reported success, and an install, follow a commit. */
  lemma ReportsAreHonest(hash: seq<byte> -> Digest, events: seq<Event>)
    ensures
      var m := Run(hash, events);
      && (forall a | a in m.acks :: a.upload < |m.uploads| && 0 <= a.uploaded <= m.uploads[a.upload].size)
      && (forall a | a in m.acks && a.finished && a.success :: WasCommitted(m, a.upload))
      && (forall id | id in m.installs :: WasCommitted(m, id))
  {
    hide Run, SessionsFit, WasCommitted;
    RunSafe(hash, events);
    var m := Run(hash, events);
    forall a | a in m.acks ensures AckFits(m, a) { }
  }

  /** A session is over for good: its object exists, is cancelled, and no client has it. */
  predicate IsOver(m: Manager, s: SessionId) {
    s < |m.objects| && m.objects[s].cancelled
  }

  /** An unfinished upload of a session that is over. */
  predicate Stranded(m: Manager, id: UploadId) {
    id < |m.uploads| && !m.uploads[id].finishing && IsOver(m, m.uploads[id].session)
  }

  lemma StrandedStays(hash: seq<byte> -> Digest, m: Manager, id: UploadId, e: Event)
    requires Safe(hash, m) && Stranded(m, id)
    ensures Stranded(Step(m, hash, e), id)
  {
    hide EndingFits, CommitFits, AckFits, UploadFits, Finished, Once;
    match e {
      case ChunkCall(c, data, o) => hide Accepted, Wrote; OnlyOpenSessions(hash, m, c, id);
      case _ => hide Chunk;
    }
  }

  lemma OnlyOpenSessions(hash: seq<byte> -> Digest, m: Manager, c: Client, id: UploadId)
    requires Safe(hash, m) && Stranded(m, id)
    ensures TargetOf(m, c) != Some(id)
  {
    hide EndingFits, CommitFits, AckFits, UploadFits, Finished, Once;
  }

  lemma {:induction false} StrandedForever(hash: seq<byte> -> Digest, events: seq<Event>, i: nat, id: UploadId)
    requires i <= |events| && Stranded(Run(hash, events[..i]), id)
    ensures Stranded(Run(hash, events), id)
  {
    hide Step, Stranded, Safe;
    if i == |events| {
      assert events[..i] == events;
    } else {
      var front := events[..|events| - 1];
      assert front[..i] == events[..i];
      StrandedForever(hash, front, i, id);
      RunSafe(hash, front);
      StrandedStays(hash, Run(hash, front), id, events[|events| - 1]);
    }
  }

  /** Once its session is closed, an upload that was not yet finishing is never committed. */
  lemma ClosingPreventsCommit(hash: seq<byte> -> Digest, events: seq<Event>, i: nat, id: UploadId)
    requires i <= |events| && Stranded(Run(hash, events[..i]), id)
    ensures !WasCommitted(Run(hash, events), id)
  {
    hide Step, Run, SessionsFit;
    StrandedForever(hash, events, i, id);
    RunSafe(hash, events);
    var m := Run(hash, events);
    forall k | 0 <= k < |m.committed| ensures m.committed[k].upload != id { assert CommitFits(hash, m, k); }
  }

  /** Closing a client's session, or the manager, strands the unfinished uploads of the sessions it ends. */
  lemma ClosingStrands(hash: seq<byte> -> Digest, m: Manager, c: Client, id: UploadId)
    requires Safe(hash, m) && TargetOf(m, c) == Some(id) && !m.uploads[id].finishing
    ensures Stranded(CloseClient(m, c), id) && Stranded(Close(m), id)
  {
    hide EndingFits, CommitFits, AckFits, UploadFits, Finished, Once;
    assert m.sessions[c] in m.sessions.Values;
  }
}
