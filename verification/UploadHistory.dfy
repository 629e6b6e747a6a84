/** Which sessions are open, what becomes of an upload and what is reported of it, told from the events alone. */
module UploadHistory {
  import opened JsNumbers
  import opened Wrappers
  import opened UploadModel
  import S = UploadSafety

  type Hash = seq<byte> -> Digest

  lemma RunNext(hash: Hash, events: seq<Event>, k: nat)
    requires k < |events|
    ensures Run(hash, events[..k + 1]) == Step(Run(hash, events[..k]), hash, events[k])
  {
    hide Step;
    assert events[..k + 1][..k] == events[..k];
  }

  // ---------------------------------------------------------------- sessions

  predicate ClosesAll(events: seq<Event>, x: nat) {
    x < |events| && events[x].CloseCall?
  }

  predicate ClosesOne(events: seq<Event>, x: nat, c: Client) {
    x < |events| && events[x].CloseClientCall? && events[x].c == c
  }

  predicate OpenedAt(events: seq<Event>, i: nat, n: nat, c: Client) {
    i < n <= |events| && events[i] == OpenCall(c) && forall x: nat :: i < x < n ==> !ClosesOne(events, x, c)
  }

  /** The manager is closed once it was closed; until then clients have a session from an opening to its closing. */
  lemma {:induction false} SessionsExactly(hash: Hash, events: seq<Event>, n: nat, c: Client)
    requires n <= |events|
    ensures Run(hash, events[..n]).closed <==> exists x: nat :: x < n && ClosesAll(events, x)
    ensures c in Run(hash, events[..n]).sessions <==>
      !Run(hash, events[..n]).closed && exists i: nat :: i < n && OpenedAt(events, i, n, c)
  {
    hide Step, OpenedAt;
    if n > 0 {
      SessionsExactly(hash, events, n - 1, c);
      RunNext(hash, events, n - 1);
      SessionStep(hash, Run(hash, events[..n - 1]), events[n - 1], c);
      OpenedNext(events, n, c);
      assert ClosesAll(events, n - 1) <==> events[n - 1].CloseCall?;
    }
  }

  lemma OpenedNext(events: seq<Event>, n: nat, c: Client)
    requires 0 < n <= |events|
    ensures
      var e, before := events[n - 1], n - 1;
      (exists i: nat :: i < n && OpenedAt(events, i, n, c)) <==>
        e == OpenCall(c) || (e != CloseClientCall(c) && exists i: nat :: i < before && OpenedAt(events, i, before, c))
  {
    if events[n - 1] == OpenCall(c) { assert OpenedAt(events, n - 1, n, c); }
    var before := n - 1;
    if i: nat :| i < before && OpenedAt(events, i, before, c) && events[n - 1] != CloseClientCall(c) {
      assert OpenedAt(events, i, n, c);
    }
    if i: nat :| i < n && OpenedAt(events, i, n, c) {
      assert i < before ==> OpenedAt(events, i, before, c) && !ClosesOne(events, n - 1, c);
    }
  }

  lemma SessionStep(hash: Hash, m: Manager, e: Event, c: Client)
    ensures
      var r := Step(m, hash, e);
      && (r.closed <==> m.closed || e.CloseCall?)
      && (c in r.sessions <==>
            if e == OpenCall(c) then c in m.sessions || !m.closed
            else c in m.sessions && e != CloseClientCall(c) && e != CloseCall)
      && (c in m.sessions && c in r.sessions ==> r.sessions[c] == m.sessions[c])
  {
    hide Acceptable, CanStart, TargetOf, Accepted, Wrote;
  }

  /** A session that is opened is a new one, open and without an upload. */
  lemma OpenTells(hash: Hash, events: seq<Event>, c: Client)
    ensures
      var m, r := Run(hash, events), Run(hash, events + [OpenCall(c)]);
      if m.closed || c in m.sessions then r == m
      else
        && c in r.sessions && r.sessions[c] == |m.objects| && r.objects == m.objects + [Session(c, false, None)]
        && r.uploads == m.uploads
  {
    hide Run;
    RunMore(hash, events, OpenCall(c));
  }

  lemma RunMore(hash: Hash, events: seq<Event>, e: Event)
    ensures Run(hash, events + [e]) == Step(Run(hash, events), hash, e)
  {
    hide Step;
    assert (events + [e])[..|events|] == events;
  }

  // ---------------------------------------------------------------- starts

  /** The command came in on the client's open session, which has no upload, and asks for what can be asked for. */
  predicate Begins(m: Manager, e: Event) {
    && e.StartCall? && e.c in m.sessions && m.sessions[e.c] == e.s && e.s < |m.objects| && m.objects[e.s].upload.None?
    && 0 <= e.request.size <= 0x8000_0000 && e.request.checksum.Some? && |e.request.checksum.value| == 32
  }

  /** A command that begins an upload adds it and gives it to the session; any other command changes nothing. */
  lemma StartTells(hash: Hash, events: seq<Event>, e: Event)
    requires e.StartCall?
    ensures
      var m, r := Run(hash, events), Run(hash, events + [e]);
      if Begins(m, e) then
        && |r.uploads| == |m.uploads| + 1 && r.uploads[..|m.uploads|] == m.uploads
        && Receiving(r, e, |m.uploads|, [])
      else r == m
  {
    hide Run;
    RunMore(hash, events, e);
    S.RunSafe(hash, events);
  }

  /** The upload a command began has got some bytes, which are in its file and in its hash, and waits for more. */
  predicate Receiving(m: Manager, e: Event, id: UploadId, got: seq<byte>)
    requires e.StartCall?
  {
    && e.c in m.sessions && m.sessions[e.c] == e.s && e.s < |m.objects| && m.objects[e.s].upload == Some(id)
    && id < |m.uploads| && e.request.checksum.Some?
    && m.uploads[id] == Upload(e.s, e.request.path, e.request.size, e.request.checksum.value, e.request.install,
                               got, got, |got|, false)
  }

  // ---------------------------------------------------------------- chunks

  predicate IsChunk(events: seq<Event>, x: nat, c: Client) {
    x < |events| && events[x].ChunkCall? && events[x].c == c
  }

  /** The device wrote all of a chunk that is not too long. */
  predicate InFull(e: Event) {
    e.ChunkCall? && |e.data| <= 65536 && e.outcome.written && e.outcome.count >= |e.data|
  }

  /** All bytes that a client sent after one event and before another. */
  function Sent(events: seq<Event>, c: Client, i: nat, n: nat): seq<byte>
    requires n <= |events|
  {
    if n <= i + 1 then []
    else Sent(events, c, i, n - 1) + if IsChunk(events, n - 1, c) then events[n - 1].data else []
  }

  /** An event leaves an upload waiting for more. */
  predicate GoesOn(events: seq<Event>, i: nat, x: nat)
    requires i < |events| && events[i].StartCall? && x < |events|
  {
    var c := events[i].c;
    && !ClosesAll(events, x) && !ClosesOne(events, x, c)
    && (IsChunk(events, x, c) ==> InFull(events[x]) && |Sent(events, c, i, x + 1)| < events[i].request.size)
  }

  predicate GoesOnUntil(events: seq<Event>, i: nat, n: nat)
    requires i < |events| && events[i].StartCall? && n <= |events|
  {
    forall x: nat :: i < x < n ==> GoesOn(events, i, x)
  }

  /** The upload begun by one event is over for the receiver: it waits for its ending, or its session is closed. */
  predicate Left(m: Manager, id: UploadId) {
    id < |m.uploads| && (m.uploads[id].finishing || S.Stranded(m, id))
  }

  lemma {:induction false} WaitsOrLeft(hash: Hash, events: seq<Event>, i: nat, n: nat, id: UploadId)
    requires i < n <= |events| && events[i].StartCall?
    requires Begins(Run(hash, events[..i]), events[i]) && id == |Run(hash, events[..i]).uploads|
    ensures
      var m := Run(hash, events[..n]);
      if GoesOnUntil(events, i, n) then Receiving(m, events[i], id, Sent(events, events[i].c, i, n)) else Left(m, id)
    decreases n
  {
    hide Step, Begins, Receiving, Left, GoesOn;
    RunNext(hash, events, n - 1);
    if n == i + 1 {
      assert events[..n] == events[..i] + [events[i]];
      StartTells(hash, events[..i], events[i]);
    } else {
      WaitsOrLeft(hash, events, i, n - 1, id);
      S.RunSafe(hash, events[..n - 1]);
      var m := Run(hash, events[..n - 1]);
      if GoesOnUntil(events, i, n - 1) {
        OneMore(hash, events, i, n - 1, id);
      } else {
        LeftStays(hash, m, events[n - 1], id);
      }
    }
  }

  lemma LeftStays(hash: Hash, m: Manager, e: Event, id: UploadId)
    requires S.Safe(hash, m) && Left(m, id)
    ensures Left(Step(m, hash, e), id)
  {
    if S.Stranded(m, id) {
      S.StrandedStays(hash, m, id, e);
    } else {
      hide S.Safe, Accepted, Wrote, TargetOf, Acceptable, CanStart;
    }
  }

  lemma OneMore(hash: Hash, events: seq<Event>, i: nat, x: nat, id: UploadId)
    requires i < x < |events| && events[i].StartCall? && S.Safe(hash, Run(hash, events[..x]))
    requires Receiving(Run(hash, events[..x]), events[i], id, Sent(events, events[i].c, i, x))
    ensures
      var r := Step(Run(hash, events[..x]), hash, events[x]);
      if GoesOn(events, i, x) then Receiving(r, events[i], id, Sent(events, events[i].c, i, x + 1)) else Left(r, id)
  {
    hide Run;
    var m, e := Run(hash, events[..x]), events[x];
    match e {
      case ChunkCall(c, data, o) =>
        if c == events[i].c { OwnChunk(hash, m, events[i], id, Sent(events, c, i, x), e); }
        else { OtherChunk(hash, m, events[i], id, Sent(events, events[i].c, i, x), e); }
      case _ => NoChunk(hash, m, events[i], id, Sent(events, events[i].c, i, x), e);
    }
  }

  lemma OwnChunk(hash: Hash, m: Manager, start: Event, id: UploadId, got: seq<byte>, e: Event)
    requires start.StartCall? && S.Safe(hash, m) && Receiving(m, start, id, got) && e.ChunkCall? && e.c == start.c
    ensures
      if InFull(e) && |got| + |e.data| < start.request.size then
        Receiving(Step(m, hash, e), start, id, got + e.data)
      else Left(Step(m, hash, e), id)
  {
    hide S.Safe;
    assert e.outcome.count >= |e.data| ==> e.data[..|e.data|] == e.data;
    assert S.UploadFits(m.uploads[id]) by { UploadsFit(hash, m, id); }
  }

  lemma UploadsFit(hash: Hash, m: Manager, id: UploadId)
    requires S.Safe(hash, m) && id < |m.uploads|
    ensures S.UploadFits(m.uploads[id])
  {
  }

  lemma OtherChunk(hash: Hash, m: Manager, start: Event, id: UploadId, got: seq<byte>, e: Event)
    requires start.StartCall? && S.Safe(hash, m) && Receiving(m, start, id, got) && e.ChunkCall? && e.c != start.c
    ensures Receiving(Step(m, hash, e), start, id, got)
  {
    hide S.EndingFits, S.CommitFits, S.AckFits, S.UploadFits, S.Finished, S.Once, Accepted, Wrote;
  }

  lemma NoChunk(hash: Hash, m: Manager, start: Event, id: UploadId, got: seq<byte>, e: Event)
    requires start.StartCall? && S.Safe(hash, m) && Receiving(m, start, id, got) && !e.ChunkCall?
    ensures
      if e == CloseCall || e == CloseClientCall(start.c) then S.Stranded(Step(m, hash, e), id)
      else Receiving(Step(m, hash, e), start, id, got)
  {
  }

  // ---------------------------------------------------------------- endings

  /** A chunk is the last one of an upload: it completes it, is too much for it, or could not be written. */
  predicate Ends(events: seq<Event>, i: nat, k: nat)
    requires i < |events| && events[i].StartCall?
  {
    i < k < |events| && GoesOnUntil(events, i, k) && IsChunk(events, k, events[i].c) && !GoesOn(events, i, k)
  }

  /** A chunk completes an upload: it is written in full and synced, and all the bytes sent have the declared digest. */
  predicate Completes(hash: Hash, events: seq<Event>, i: nat, k: nat)
    requires i < |events| && events[i].StartCall?
  {
    i < k < |events| && GoesOnUntil(events, i, k) && IsChunk(events, k, events[i].c) && InFull(events[k])
    && events[k].outcome.synced
    && var all := Sent(events, events[i].c, i, k + 1);
       |all| == events[i].request.size && events[i].request.checksum == Some(hash(all))
  }

  /** What the device keeps of a last chunk: nothing if it is too much, else as much as was written. */
  function Kept(got: seq<byte>, size: int, e: Event): seq<byte>
    requires e.ChunkCall?
  {
    if |e.data| > 65536 || |got| + |e.data| > size then got
    else got + if e.outcome.count < |e.data| then e.data[..e.outcome.count] else e.data
  }

  /** An upload that has got its last chunk, with what is known of it. */
  datatype Fate = Fate(ending: Ending, committed: bool, success: bool, failure: bool, installed: bool)

  ghost function FateOf(m: Manager, id: UploadId): Fate
    requires id in m.endings
  {
    Fate(m.endings[id], S.WasCommitted(m, id), ToldWith(m, id, true), ToldWith(m, id, false), id in m.installs)
  }

  /** The end of an upload was reported, with this success. */
  predicate ToldWith(m: Manager, id: UploadId, success: bool) {
    exists a :: a in m.acks && a.upload == id && a.finished && a.success == success
  }

  lemma LastChunk(hash: Hash, m: Manager, start: Event, id: UploadId, got: seq<byte>, e: Event)
    requires start.StartCall? && S.Safe(hash, m) && Receiving(m, start, id, got) && e.ChunkCall? && e.c == start.c
    requires !(InFull(e) && |got| + |e.data| < start.request.size)
    ensures
      var r := Step(m, hash, e);
      var good := InFull(e) && e.outcome.synced && |got| + |e.data| == start.request.size
                  && start.request.checksum == Some(hash(got + e.data));
      && id in r.endings && id !in m.endings && r.endings[id] == Committing(good) && id < |r.uploads|
      && r.committed == m.committed && r.acks == m.acks && r.installs == m.installs
      && r.uploads[id].install == start.request.install
      && r.uploads[id].content == Kept(got, start.request.size, e) && r.uploads[id].uploaded == |r.uploads[id].content|
  {
    hide S.EndingFits, S.CommitFits, S.AckFits, S.Once;
    assert e.outcome.count >= |e.data| ==> e.data[..|e.data|] == e.data;
    UploadsFit(hash, m, id);
    S.NotEnding(hash, m, id);
  }

  lemma OneMoreCommit(m: Manager, r: Manager, commit: Commit, id: UploadId)
    requires r.committed == m.committed + [commit]
    ensures S.WasCommitted(r, id) <==> S.WasCommitted(m, id) || commit.upload == id
  {
    if S.WasCommitted(m, id) { S.CommittedKept(m, r); }
    if commit.upload == id { assert r.committed[|m.committed|].upload == id; }
  }

  lemma OneMoreAck(m: Manager, r: Manager, a: Ack, id: UploadId, success: bool)
    requires r.acks == m.acks + [a]
    ensures ToldWith(r, id, success) <==>
      ToldWith(m, id, success) || (a.upload == id && a.finished && a.success == success)
  {
    assert a in r.acks;
    if ToldWith(m, id, success) {
      var b :| b in m.acks && b.upload == id && b.finished && b.success == success;
      assert b in r.acks;
    }
  }

  lemma CommitStepTells(m: Manager, j: UploadId, succeeds: bool, id: UploadId)
    requires id in m.endings && id < |m.uploads|
    ensures
      var r := CommitStep(m, j, succeeds);
      S.WasCommitted(r, id) <==> S.WasCommitted(m, id) || (j == id && m.endings[id] == Committing(true) && succeeds)
  {
    hide S.WasCommitted;
    var r := CommitStep(m, j, succeeds);
    if r.committed == m.committed {
      SameCommits(m, r, id);
    } else {
      OneMoreCommit(m, r, r.committed[|m.committed|], id);
    }
  }

  lemma SameCommits(m: Manager, r: Manager, id: UploadId)
    requires r.committed == m.committed
    ensures S.WasCommitted(r, id) <==> S.WasCommitted(m, id)
  {
  }

  lemma SameAcks(m: Manager, r: Manager, id: UploadId)
    requires r.acks == m.acks
    ensures forall b :: ToldWith(r, id, b) <==> ToldWith(m, id, b)
  {
  }

  lemma ClearStepTells(m: Manager, j: UploadId, id: UploadId)
    requires id in m.endings && id < |m.uploads|
    ensures
      var r := ClearStep(m, j);
      forall b :: ToldWith(r, id, b) <==> ToldWith(m, id, b) || (j == id && m.endings[id] == Clearing(b))
  {
    hide ToldWith;
    var r := ClearStep(m, j);
    if r.acks == m.acks {
      SameAcks(m, r, id);
    } else {
      var last := r.acks[|m.acks|];
      forall b ensures ToldWith(r, id, b) <==> ToldWith(m, id, b) || (last.upload == id && last.success == b) {
        OneMoreAck(m, r, last, id, b);
      }
    }
  }

  lemma ChunkTells(hash: Hash, m: Manager, c: Client, data: seq<byte>, o: Outcome, id: UploadId)
    ensures
      var r := Chunk(m, hash, c, data, o);
      forall b :: ToldWith(r, id, b) <==> ToldWith(m, id, b)
  {
    hide ToldWith, Accepted, Wrote;
    var r := Chunk(m, hash, c, data, o);
    if r.acks == m.acks {
      SameAcks(m, r, id);
    } else {
      forall b ensures ToldWith(r, id, b) <==> ToldWith(m, id, b) { OneMoreAck(m, r, r.acks[|m.acks|], id, b); }
    }
  }

  /** Committing, and nothing else, takes an upload that got its last chunk on; then clearing it, and nothing else. */
  lemma EndingStep(hash: Hash, m: Manager, e: Event, id: UploadId)
    requires S.Safe(hash, m) && id in m.endings
    ensures
      var r := Step(m, hash, e);
      && id < |m.uploads| <= |r.uploads| && r.uploads[id] == m.uploads[id] && id in r.endings
      && r.endings[id] ==
           match m.endings[id]
           case Committing(good) =>
             if e.CommitFile? && e.id == id then Clearing(good && e.succeeds) else m.endings[id]
           case Clearing(good) => if e == ClearUpload(id) then Over else m.endings[id]
           case Over => Over
  {
    assert S.EndingFits(hash, m, id);
    hide S.Safe, Acceptable, CanStart, Accepted, Wrote, TargetOf;
  }

  lemma InstallStep(hash: Hash, m: Manager, e: Event, id: UploadId)
    requires id in m.endings && id < |m.uploads|
    ensures id in Step(m, hash, e).installs <==>
      id in m.installs || (e == ClearUpload(id) && m.endings[id] == Clearing(true) && m.uploads[id].install)
  {
    hide Acceptable, CanStart, Accepted, Wrote, TargetOf;
  }

  /** A fate after an event: a commit and a clearing take it on, each at its time. */
  function NextFate(fate: Fate, install: bool, e: Event, id: UploadId): Fate {
    match fate.ending
    case Committing(good) =>
      if e.CommitFile? && e.id == id then
        fate.(ending := Clearing(good && e.succeeds), committed := fate.committed || (good && e.succeeds))
      else fate
    case Clearing(good) =>
      if e == ClearUpload(id) then
        fate.(ending := Over, success := fate.success || good, failure := fate.failure || !good,
              installed := fate.installed || (good && install))
      else fate
    case Over => fate
  }

  lemma FateStep(hash: Hash, m: Manager, e: Event, id: UploadId)
    requires S.Safe(hash, m) && id in m.endings
    ensures
      var r := Step(m, hash, e);
      && id < |m.uploads| <= |r.uploads| && r.uploads[id] == m.uploads[id] && id in r.endings
      && FateOf(r, id) == NextFate(FateOf(m, id), m.uploads[id].install, e, id)
  {
    EndingStep(hash, m, e, id);
    InstallStep(hash, m, e, id);
    hide S.Safe, Open, CloseClient, Close, StartUpload, Chunk, CommitStep, ClearStep, S.WasCommitted, ToldWith;
    CommitOfStep(hash, m, e, id);
    AcksOfStep(hash, m, e, id);
  }

  lemma CommitOfStep(hash: Hash, m: Manager, e: Event, id: UploadId)
    requires id in m.endings && id < |m.uploads|
    ensures S.WasCommitted(Step(m, hash, e), id) <==>
      S.WasCommitted(m, id) || (e.CommitFile? && e.id == id && m.endings[id] == Committing(true) && e.succeeds)
  {
    hide S.WasCommitted, CommitStep, Acceptable, CanStart, Accepted, Wrote, TargetOf;
    if e.CommitFile? {
      CommitStepTells(m, e.id, e.succeeds, id);
    } else {
      SameCommits(m, Step(m, hash, e), id);
    }
  }

  lemma AcksOfStep(hash: Hash, m: Manager, e: Event, id: UploadId)
    requires id in m.endings && id < |m.uploads|
    ensures forall b :: ToldWith(Step(m, hash, e), id, b) <==>
      ToldWith(m, id, b) || (e == ClearUpload(id) && m.endings[id] == Clearing(b))
  {
    hide ToldWith, ClearStep, Chunk, Acceptable, CanStart;
    match e
    case ClearUpload(j) => ClearStepTells(m, j, id);
    case ChunkCall(c, data, o) => ChunkTells(hash, m, c, data, o, id);
    case _ => SameAcks(m, Step(m, hash, e), id);
  }

  /** A finished report is of an upload that is over, and tells how much of it was written. */
  predicate ReportFits(m: Manager, a: Ack) {
    a.finished ==> a.upload in m.endings && m.endings[a.upload] == Over && a.upload < |m.uploads|
                   && a.uploaded == m.uploads[a.upload].uploaded
  }

  lemma {:induction false} ReportsFit(hash: Hash, events: seq<Event>)
    ensures forall a | a in Run(hash, events).acks :: ReportFits(Run(hash, events), a)
  {
    hide Step, ReportFits;
    if events != [] {
      var front := events[..|events| - 1];
      ReportsFit(hash, front);
      S.RunSafe(hash, front);
      forall a | a in Run(hash, events).acks ensures ReportFits(Run(hash, events), a) {
        ReportStep(hash, Run(hash, front), events[|events| - 1], a);
      }
    }
  }

  lemma ReportStep(hash: Hash, m: Manager, e: Event, a: Ack)
    requires S.Safe(hash, m) && a in Step(m, hash, e).acks && (a in m.acks ==> ReportFits(m, a))
    ensures ReportFits(Step(m, hash, e), a)
  {
    if a in m.acks && a.finished {
      EndingStep(hash, m, e, a.upload);
    }
    hide S.Safe, Acceptable, CanStart, Accepted, Wrote, TargetOf;
  }

  /** Nothing is known yet of an upload that waits for its last chunk. */
  lemma NothingYet(hash: Hash, events: seq<Event>, id: UploadId)
    requires id !in Run(hash, events).endings
    ensures
      var m := Run(hash, events);
      !S.WasCommitted(m, id) && !ToldWith(m, id, true) && !ToldWith(m, id, false) && id !in m.installs
  {
    hide Run;
    var m := Run(hash, events);
    S.RunSafe(hash, events);
    ReportsFit(hash, events);
    forall k | 0 <= k < |m.committed| ensures m.committed[k].upload in m.endings { assert S.CommitFits(hash, m, k); }
  }

  // ---------------------------------------------------------------- the three stages after the last chunk

  predicate IsCommit(events: seq<Event>, y: nat, id: UploadId) {
    y < |events| && events[y].CommitFile? && events[y].id == id
  }

  predicate IsClear(events: seq<Event>, y: nat, id: UploadId) {
    y < |events| && events[y] == ClearUpload(id)
  }

  /** The first commit of an upload after its last chunk. */
  predicate Commits(events: seq<Event>, k: nat, l: nat, id: UploadId) {
    k < l && IsCommit(events, l, id) && forall y: nat :: k < y < l ==> !IsCommit(events, y, id)
  }

  /** The first clearing of an upload after its commit. */
  predicate Clears(events: seq<Event>, l: nat, x: nat, id: UploadId) {
    l < x && IsClear(events, x, id) && forall y: nat :: l < y < x ==> !IsClear(events, y, id)
  }

  /** An upload that got its last chunk has a fate, and is as that chunk left it. */
  ghost predicate HasFate(hash: Hash, events: seq<Event>, i: nat, k: nat, n: nat, id: UploadId, fate: Fate)
    requires i < k < n <= |events| && events[i].StartCall?
  {
    var m := Run(hash, events[..n]);
    && id in m.endings && id < |m.uploads| && FateOf(m, id) == fate
    && m.uploads[id].install == events[i].request.install
    && events[k].ChunkCall? && m.uploads[id].uploaded == |m.uploads[id].content|
    && m.uploads[id].content == Kept(Sent(events, events[i].c, i, k), events[i].request.size, events[k])
  }

  lemma FateNext(hash: Hash, events: seq<Event>, i: nat, k: nat, n: nat, id: UploadId, fate: Fate)
    requires i < k < n < |events| && events[i].StartCall? && HasFate(hash, events, i, k, n, id, fate)
    ensures HasFate(hash, events, i, k, n + 1, id, NextFate(fate, events[i].request.install, events[n], id))
  {
    hide Step, FateOf, Run, Kept;
    RunNext(hash, events, n);
    S.RunSafe(hash, events[..n]);
    EndingIsFate(Run(hash, events[..n]), id);
    FateStep(hash, Run(hash, events[..n]), events[n], id);
  }

  lemma {:induction false} Uncommitted(hash: Hash, events: seq<Event>, i: nat, k: nat, n: nat, id: UploadId)
    requires i < k < n <= |events| && events[i].StartCall? && Ends(events, i, k)
    requires Begins(Run(hash, events[..i]), events[i]) && id == |Run(hash, events[..i]).uploads|
    requires forall y: nat :: k < y < n ==> !IsCommit(events, y, id)
    ensures HasFate(hash, events, i, k, n, id,
                    Fate(Committing(Completes(hash, events, i, k)), false, false, false, false))
    decreases n
  {
    hide Run, HasFate, Completes, Begins, Ends;
    if n == k + 1 {
      LastChunkOfRun(hash, events, i, k, id);
    } else {
      Uncommitted(hash, events, i, k, n - 1, id);
      assert !IsCommit(events, n - 1, id);
      var good := Completes(hash, events, i, k);
      FateNext(hash, events, i, k, n - 1, id, Fate(Committing(good), false, false, false, false));
    }
  }

  lemma EndingIsFate(m: Manager, id: UploadId)
    requires id in m.endings
    ensures FateOf(m, id).ending == m.endings[id] && FateOf(m, id).committed == S.WasCommitted(m, id)
    ensures FateOf(m, id).success == ToldWith(m, id, true) && FateOf(m, id).failure == ToldWith(m, id, false)
    ensures FateOf(m, id).installed == (id in m.installs)
  {
  }

  lemma LastChunkOfRun(hash: Hash, events: seq<Event>, i: nat, k: nat, id: UploadId)
    requires i < k < |events| && events[i].StartCall? && Ends(events, i, k)
    requires Begins(Run(hash, events[..i]), events[i]) && id == |Run(hash, events[..i]).uploads|
    ensures HasFate(hash, events, i, k, k + 1, id,
                    Fate(Committing(Completes(hash, events, i, k)), false, false, false, false))
  {
    hide Step, Begins, Receiving, Run;
    var m := Run(hash, events[..k]);
    RunNext(hash, events, k);
    S.RunSafe(hash, events[..k]);
    WaitsOrLeft(hash, events, i, k, id);
    var got := Sent(events, events[i].c, i, k);
    LastChunk(hash, m, events[i], id, got, events[k]);
    NothingYet(hash, events[..k], id);
    var r := Run(hash, events[..k + 1]);
    SameCommits(m, r, id);
    SameAcks(m, r, id);
    assert Sent(events, events[i].c, i, k + 1) == got + events[k].data;
  }

  lemma {:induction false} Uncleared(hash: Hash, events: seq<Event>, i: nat, k: nat, l: nat, n: nat, id: UploadId)
    requires i < k < l < n <= |events| && events[i].StartCall? && Ends(events, i, k) && Commits(events, k, l, id)
    requires Begins(Run(hash, events[..i]), events[i]) && id == |Run(hash, events[..i]).uploads|
    requires forall y: nat :: l < y < n ==> !IsClear(events, y, id)
    ensures
      var done := Completes(hash, events, i, k) && events[l].succeeds;
      HasFate(hash, events, i, k, n, id, Fate(Clearing(done), done, false, false, false))
    decreases n
  {
    hide Run, HasFate, Completes, Begins, Ends;
    var good := Completes(hash, events, i, k);
    var done := good && events[l].succeeds;
    if n == l + 1 {
      Uncommitted(hash, events, i, k, l, id);
      FateNext(hash, events, i, k, l, id, Fate(Committing(good), false, false, false, false));
    } else {
      Uncleared(hash, events, i, k, l, n - 1, id);
      assert !IsClear(events, n - 1, id);
      FateNext(hash, events, i, k, n - 1, id, Fate(Clearing(done), done, false, false, false));
    }
  }

  lemma {:induction false} Cleared(hash: Hash, events: seq<Event>, i: nat, k: nat, l: nat, x: nat, n: nat, id: UploadId)
    requires i < k < l < x < n <= |events| && events[i].StartCall? && Ends(events, i, k)
    requires Commits(events, k, l, id) && Clears(events, l, x, id)
    requires Begins(Run(hash, events[..i]), events[i]) && id == |Run(hash, events[..i]).uploads|
    ensures
      var done := Completes(hash, events, i, k) && events[l].succeeds;
      HasFate(hash, events, i, k, n, id, Fate(Over, done, done, !done, done && events[i].request.install))
    decreases n
  {
    hide Run, HasFate, Completes, Begins, Ends;
    var done := Completes(hash, events, i, k) && events[l].succeeds;
    if n == x + 1 {
      Uncleared(hash, events, i, k, l, x, id);
      FateNext(hash, events, i, k, x, id, Fate(Clearing(done), done, false, false, false));
    } else {
      Cleared(hash, events, i, k, l, x, n - 1, id);
      FateNext(hash, events, i, k, n - 1, id, Fate(Over, done, done, !done, done && events[i].request.install));
    }
  }

  // ---------------------------------------------------------------- the theorems

  /** An upload is delivered when a chunk completes it and the first commit after that succeeds. */
  predicate Delivered(hash: Hash, events: seq<Event>, i: nat, k: nat, l: nat, id: UploadId)
    requires i < |events| && events[i].StartCall?
  {
    Completes(hash, events, i, k) && Commits(events, k, l, id) && l < |events| && events[l].succeeds
  }

  /** An upload is told to have failed when its last chunk does not complete it, or the commit fails. */
  predicate Missed(hash: Hash, events: seq<Event>, i: nat, k: nat, l: nat, id: UploadId)
    requires i < |events| && events[i].StartCall?
  {
    Ends(events, i, k) && Commits(events, k, l, id) && l < |events|
    && !(Completes(hash, events, i, k) && events[l].succeeds)
  }

  /** Where an upload stands at the end of a run: before its last chunk, or at one of the three stages after it. */
  datatype Stage = Before | Waits(k: nat) | Done(k: nat, l: nat) | Told(k: nat, l: nat, x: nat)

  ghost predicate AtStage(hash: Hash, events: seq<Event>, i: nat, id: UploadId, stage: Stage)
    requires i < |events| && events[i].StartCall?
  {
    match stage
    case Before => forall k: nat :: k < |events| ==> !Ends(events, i, k)
    case Waits(k) =>
      k < |events| && Ends(events, i, k) && forall y: nat :: k < y < |events| ==> !IsCommit(events, y, id)
    case Done(k, l) =>
      k < l < |events| && Ends(events, i, k) && Commits(events, k, l, id)
      && forall y: nat :: l < y < |events| ==> !IsClear(events, y, id)
    case Told(k, l, x) =>
      k < l < x < |events| && Ends(events, i, k) && Commits(events, k, l, id) && Clears(events, l, x, id)
  }

  lemma FirstCommit(events: seq<Event>, k: nat, n: nat, id: UploadId) returns (l: nat)
    requires k < n <= |events|
    ensures if exists y: nat :: k < y < n && IsCommit(events, y, id) then l < n && Commits(events, k, l, id) else l == n
  {
    l := k + 1;
    while l < n && !IsCommit(events, l, id)
      invariant k < l <= n && forall y: nat :: k < y < l ==> !IsCommit(events, y, id)
    {
      l := l + 1;
    }
  }

  lemma FirstClear(events: seq<Event>, l: nat, n: nat, id: UploadId) returns (x: nat)
    requires l < n <= |events|
    ensures if exists y: nat :: l < y < n && IsClear(events, y, id) then x < n && Clears(events, l, x, id) else x == n
  {
    x := l + 1;
    while x < n && !IsClear(events, x, id)
      invariant l < x <= n && forall y: nat :: l < y < x ==> !IsClear(events, y, id)
    {
      x := x + 1;
    }
  }

  lemma SomeStage(hash: Hash, events: seq<Event>, i: nat, id: UploadId) returns (stage: Stage)
    requires i < |events| && events[i].StartCall?
    ensures AtStage(hash, events, i, id, stage)
  {
    hide Ends;
    if k: nat :| k < |events| && Ends(events, i, k) {
      var n := |events|;
      var l := FirstCommit(events, k, n, id);
      if l == n {
        stage := Waits(k);
      } else {
        var x := FirstClear(events, l, n, id);
        stage := if x == n then Done(k, l) else Told(k, l, x);
      }
    } else {
      stage := Before;
    }
  }

  lemma EndsOnce(events: seq<Event>, i: nat, k: nat, l: nat)
    requires i < |events| && events[i].StartCall? && Ends(events, i, k) && Ends(events, i, l)
    ensures k == l
  {
    hide GoesOn;
  }

  lemma CompletingEnds(hash: Hash, events: seq<Event>, i: nat, k: nat)
    requires i < |events| && events[i].StartCall? && Completes(hash, events, i, k)
    ensures Ends(events, i, k)
  {
  }

  lemma FirstStop(events: seq<Event>, i: nat, n: nat) returns (x: nat)
    requires i < n <= |events| && events[i].StartCall?
    ensures i < x <= n && GoesOnUntil(events, i, x) && (x < n ==> !GoesOn(events, i, x))
  {
    hide GoesOn;
    x := i + 1;
    while x < n && GoesOn(events, i, x)
      invariant i < x <= n && GoesOnUntil(events, i, x)
    {
      x := x + 1;
    }
  }

  lemma BeforeItsEnd(hash: Hash, events: seq<Event>, i: nat, id: UploadId)
    requires i < |events| && events[i].StartCall? && AtStage(hash, events, i, id, Before)
    requires Begins(Run(hash, events[..i]), events[i]) && id == |Run(hash, events[..i]).uploads|
    ensures id !in Run(hash, events).endings
  {
    hide Run, Begins;
    var n := |events|;
    assert events[..n] == events;
    S.RunSafe(hash, events);
    var x := FirstStop(events, i, n);
    WaitsOrLeft(hash, events, i, x, id);
    if x < n {
      assert !Ends(events, i, x);
      S.RunSafe(hash, events[..x]);
      RunNext(hash, events, x);
      NoChunk(hash, Run(hash, events[..x]), events[i], id, Sent(events, events[i].c, i, x), events[x]);
      S.StrandedForever(hash, events, x + 1, id);
    }
    NotYetEnding(hash, Run(hash, events), id);
  }

  lemma NotYetEnding(hash: Hash, m: Manager, id: UploadId)
    requires S.Safe(hash, m) && id < |m.uploads| && !m.uploads[id].finishing
    ensures id !in m.endings
  {
    assert id in m.endings ==> S.EndingFits(hash, m, id);
  }

  /** What is known of an upload at each stage. */
  lemma StageTells(hash: Hash, events: seq<Event>, i: nat, id: UploadId, stage: Stage)
    requires i < |events| && Begins(Run(hash, events[..i]), events[i]) && id == |Run(hash, events[..i]).uploads|
    requires AtStage(hash, events, i, id, stage)
    ensures
      var m := Run(hash, events);
      var done := (stage.Done? || stage.Told?) && Completes(hash, events, i, stage.k) && events[stage.l].succeeds;
      && (S.WasCommitted(m, id) <==> done)
      && (ToldWith(m, id, true) <==> stage.Told? && done) && (ToldWith(m, id, false) <==> stage.Told? && !done)
      && (id in m.installs <==> stage.Told? && done && events[i].request.install)
      && (!stage.Before? ==>
            id < |m.uploads| && IsChunk(events, stage.k, events[i].c) &&
            var u := m.uploads[id];
            u.uploaded == |u.content|
            && u.content == Kept(Sent(events, events[i].c, i, stage.k), events[i].request.size, events[stage.k]))
  {
    hide Run, GoesOn, Completes, S.WasCommitted, ToldWith, Kept;
    assert events[..|events|] == events;
    assert events[i].StartCall?;
    match stage {
      case Before => BeforeItsEnd(hash, events, i, id); NothingYet(hash, events, id);
      case Waits(k) => Uncommitted(hash, events, i, k, |events|, id); EndingIsFate(Run(hash, events), id);
      case Done(k, l) => Uncleared(hash, events, i, k, l, |events|, id); EndingIsFate(Run(hash, events), id);
      case Told(k, l, x) => Cleared(hash, events, i, k, l, x, |events|, id); EndingIsFate(Run(hash, events), id);
    }
  }

  /** A chunk and a commit that decide an upload are those of its stage. */
  lemma OneEnd(hash: Hash, events: seq<Event>, i: nat, id: UploadId, stage: Stage, k: nat, l: nat)
    requires i < |events| && events[i].StartCall? && AtStage(hash, events, i, id, stage)
    requires Ends(events, i, k) && Commits(events, k, l, id)
    ensures (stage.Done? || stage.Told?) && stage.k == k && stage.l == l
  {
    hide GoesOn, GoesOnUntil;
    if !stage.Before? { EndsOnce(events, i, k, stage.k); }
  }

  /**
   * An upload is committed exactly if one chunk completes it (after chunks that were all taken, on a session that
   * stayed open, written in full and synced, and with the declared digest over all bytes sent) and the first commit
   * after that succeeds. It is committed with just the bytes that were sent.
   */
  lemma CommittedExactly(hash: Hash, events: seq<Event>, i: nat, id: UploadId)
    requires i < |events| && Begins(Run(hash, events[..i]), events[i]) && id == |Run(hash, events[..i]).uploads|
    ensures S.WasCommitted(Run(hash, events), id) <==>
      exists k: nat, l: nat :: Delivered(hash, events, i, k, l, id)
    ensures forall k: nat, l: nat | Delivered(hash, events, i, k, l, id) ::
      Commit(id, Sent(events, events[i].c, i, k + 1)) in Run(hash, events).committed
  {
    hide Run, Ends, Completes, GoesOnUntil;
    assert events[i].StartCall?;
    var stage := SomeStage(hash, events, i, id);
    StageTells(hash, events, i, id, stage);
    forall k: nat, l: nat | Delivered(hash, events, i, k, l, id)
      ensures stage.Done? || stage.Told?
      ensures stage.k == k && stage.l == l
    {
      CompletingEnds(hash, events, i, k);
      OneEnd(hash, events, i, id, stage, k, l);
    }
    if S.WasCommitted(Run(hash, events), id) {
      assert Delivered(hash, events, i, stage.k, stage.l, id);
      AllKept(hash, events, i, stage.k);
      CommittedContent(hash, events, id);
    }
  }

  lemma AllKept(hash: Hash, events: seq<Event>, i: nat, k: nat)
    requires i < |events| && events[i].StartCall? && Completes(hash, events, i, k)
    ensures
      var all := Sent(events, events[i].c, i, k + 1);
      Kept(Sent(events, events[i].c, i, k), events[i].request.size, events[k]) == all
      && |all| == events[i].request.size
  {
  }

  lemma CommittedContent(hash: Hash, events: seq<Event>, id: UploadId)
    requires S.WasCommitted(Run(hash, events), id)
    ensures
      var m := Run(hash, events);
      id < |m.uploads| && Commit(id, m.uploads[id].content) in m.committed
  {
    hide Run, S.GoodFile;
    S.RunSafe(hash, events);
    var m := Run(hash, events);
    var k :| 0 <= k < |m.committed| && m.committed[k].upload == id;
    assert S.CommitFits(hash, m, k);
    assert m.committed[k] == Commit(id, m.uploads[id].content);
  }

  /**
   * Once a delivered upload is cleared its success is reported, and a package asked to be installed is; once any other
   * one that got its last chunk is cleared its failure is reported. Nothing else is ever reported or installed.
   */
  lemma ReportedExactly(hash: Hash, events: seq<Event>, i: nat, id: UploadId)
    requires i < |events| && Begins(Run(hash, events[..i]), events[i]) && id == |Run(hash, events[..i]).uploads|
    ensures
      var m := Run(hash, events);
      && (ToldWith(m, id, true) <==>
            exists k: nat, l: nat, x: nat :: Delivered(hash, events, i, k, l, id) && l < x && IsClear(events, x, id))
      && (ToldWith(m, id, false) <==>
            exists k: nat, l: nat, x: nat :: Missed(hash, events, i, k, l, id) && l < x && IsClear(events, x, id))
      && (id in m.installs <==> ToldWith(m, id, true) && events[i].request.install)
  {
    hide Run, Ends, Completes, GoesOnUntil, ToldWith;
    assert events[i].StartCall?;
    var stage := SomeStage(hash, events, i, id);
    StageTells(hash, events, i, id, stage);
    forall k: nat, l: nat, x: nat | l < x && IsClear(events, x, id)
        && (Delivered(hash, events, i, k, l, id) || Missed(hash, events, i, k, l, id))
      ensures stage.Told? && stage.k == k && stage.l == l
    {
      if Completes(hash, events, i, k) { CompletingEnds(hash, events, i, k); }
      OneEnd(hash, events, i, id, stage, k, l);
      assert IsClear(events, x, id);
    }
    if stage.Told? {
      assert IsClear(events, stage.x, id) && (Delivered(hash, events, i, stage.k, stage.l, id)
                                              || Missed(hash, events, i, stage.k, stage.l, id));
    }
  }

  /** The last report on an upload tells how many bytes of it were written, and is the only one of its kind. */
  lemma LastReport(hash: Hash, events: seq<Event>, i: nat, id: UploadId, a: Ack)
    requires i < |events| && Begins(Run(hash, events[..i]), events[i]) && id == |Run(hash, events[..i]).uploads|
    requires a in Run(hash, events).acks && a.upload == id && a.finished
    ensures exists k: nat ::
      k < |events| && Ends(events, i, k)
      && a.uploaded == |Kept(Sent(events, events[i].c, i, k), events[i].request.size, events[k])|
    ensures multiset(Run(hash, events).acks)[a] == 1
    ensures forall b | b in Run(hash, events).acks && b.upload == id && b.finished :: a == b
  {
    hide Run, Completes, GoesOn, S.WasCommitted, Kept;
    assert events[i].StartCall?;
    var stage := SomeStage(hash, events, i, id);
    StageTells(hash, events, i, id, stage);
    ReportsFit(hash, events);
    var acks := Run(hash, events).acks;
    assert ReportFits(Run(hash, events), a);
    assert ToldWith(Run(hash, events), id, a.success);
    forall b | b in acks && b.upload == id && b.finished ensures a == b {
      assert ToldWith(Run(hash, events), id, b.success) && ReportFits(Run(hash, events), b);
    }
    ReportedOnce(hash, events, a);
  }

  lemma {:induction false} ReportedOnce(hash: Hash, events: seq<Event>, a: Ack)
    requires a.finished
    ensures multiset(Run(hash, events).acks)[a] <= 1
  {
    hide Step, ReportFits;
    if events != [] {
      var front := events[..|events| - 1];
      ReportedOnce(hash, front, a);
      ReportsFit(hash, front);
      AckAdded(hash, Run(hash, front), events[|events| - 1], a);
    }
  }

  lemma AckAdded(hash: Hash, m: Manager, e: Event, a: Ack)
    requires a.finished && (a in m.acks ==> ReportFits(m, a))
    ensures
      var r := Step(m, hash, e);
      multiset(r.acks)[a] == multiset(m.acks)[a]
      || (a !in m.acks && multiset(r.acks)[a] == multiset(m.acks)[a] + 1)
  {
    hide Acceptable, CanStart, Accepted, Wrote, TargetOf;
    var r := Step(m, hash, e);
    if r.acks != m.acks {
      assert r.acks == m.acks + [r.acks[|m.acks|]];
    }
  }

  // ---------------------------------------------------------------- progress

  /** A chunk after which an upload waits for more: its client is told how far it is. */
  predicate Advances(events: seq<Event>, i: nat, x: nat, uploaded: int)
    requires i < |events| && events[i].StartCall?
  {
    i < x < |events| && GoesOnUntil(events, i, x + 1) && IsChunk(events, x, events[i].c)
    && uploaded == |Sent(events, events[i].c, i, x + 1)|
  }

  /** Progress is reported exactly for the chunks after which an upload waits for more, with all the bytes so far. */
  lemma {:induction false} ProgressExactly(hash: Hash, events: seq<Event>, i: nat, n: nat, id: UploadId, uploaded: int)
    requires i < n <= |events| && events[i].StartCall?
    requires Begins(Run(hash, events[..i]), events[i]) && id == |Run(hash, events[..i]).uploads|
    ensures Ack(id, uploaded, false, true) in Run(hash, events[..n]).acks <==>
      exists x: nat :: x < n && Advances(events, i, x, uploaded)
    decreases n
  {
    hide Step, Begins, Receiving, Left, GoesOn, Run;
    var ack := Ack(id, uploaded, false, true);
    RunNext(hash, events, n - 1);
    var m, e := Run(hash, events[..n - 1]), events[n - 1];
    if n == i + 1 {
      S.RunSafe(hash, events[..i]);
      NoSuchUpload(hash, m, ack);
      StartSaysNothing(hash, m, e);
    } else {
      ProgressExactly(hash, events, i, n - 1, id, uploaded);
      WaitsOrLeft(hash, events, i, n - 1, id);
      S.RunSafe(hash, events[..n - 1]);
      if GoesOnUntil(events, i, n - 1) {
        ProgressStep(hash, m, events[i], id, Sent(events, events[i].c, i, n - 1), e, uploaded);
        assert GoesOn(events, i, n - 1) ==> GoesOnUntil(events, i, n);
        if IsChunk(events, n - 1, events[i].c) { TellGoesOn(events, i, n - 1); }
      } else {
        LeftIsSilent(hash, m, e, id, uploaded);
      }
      assert (exists x: nat :: x < n && Advances(events, i, x, uploaded)) <==>
        Advances(events, i, n - 1, uploaded) || exists x: nat :: x < n - 1 && Advances(events, i, x, uploaded);
    }
  }

  lemma TellGoesOn(events: seq<Event>, i: nat, x: nat)
    requires i < x < |events| && events[i].StartCall? && IsChunk(events, x, events[i].c)
    ensures GoesOn(events, i, x) <==>
      InFull(events[x]) && |Sent(events, events[i].c, i, x)| + |events[x].data| < events[i].request.size
    ensures Sent(events, events[i].c, i, x + 1) == Sent(events, events[i].c, i, x) + events[x].data
  {
  }

  lemma NoSuchUpload(hash: Hash, m: Manager, a: Ack)
    requires S.Safe(hash, m) && a.upload >= |m.uploads|
    ensures a !in m.acks
  {
    assert a in m.acks ==> S.AckFits(m, a);
  }

  lemma StartSaysNothing(hash: Hash, m: Manager, e: Event)
    requires e.StartCall?
    ensures Step(m, hash, e).acks == m.acks
  {
  }

  lemma ProgressStep(hash: Hash, m: Manager, start: Event, id: UploadId, got: seq<byte>, e: Event, uploaded: int)
    requires start.StartCall? && S.Safe(hash, m) && Receiving(m, start, id, got)
    ensures
      var ack := Ack(id, uploaded, false, true);
      ack in Step(m, hash, e).acks <==>
        ack in m.acks
        || (e.ChunkCall? && e.c == start.c && InFull(e) && |got| + |e.data| < start.request.size
            && uploaded == |got| + |e.data|)
  {
    hide S.EndingFits, S.CommitFits, S.AckFits, S.Once;
    UploadsFit(hash, m, id);
  }

  lemma LeftIsSilent(hash: Hash, m: Manager, e: Event, id: UploadId, uploaded: int)
    requires S.Safe(hash, m) && Left(m, id)
    ensures Ack(id, uploaded, false, true) in Step(m, hash, e).acks <==> Ack(id, uploaded, false, true) in m.acks
  {
    if S.Stranded(m, id) && e.ChunkCall? { S.OnlyOpenSessions(hash, m, e.c, id); }
    hide S.Safe, Accepted, Wrote, TargetOf, Acceptable, CanStart;
  }

  // ---------------------------------------------------------------- sessions are free again

  /** An upload occupies its session until it is over. */
  predicate Occupies(m: Manager, id: UploadId)
    requires id < |m.uploads|
  {
    var s := m.uploads[id].session;
    s < |m.objects| && (m.objects[s].upload == Some(id) <==> id !in m.endings || m.endings[id] != Over)
  }

  lemma {:induction false} BusyExactly(hash: Hash, events: seq<Event>, id: UploadId)
    requires id < |Run(hash, events).uploads|
    ensures Occupies(Run(hash, events), id)
  {
    hide Step, Occupies;
    var front := events[..|events| - 1];
    var m := Run(hash, front);
    S.RunSafe(hash, front);
    if id < |m.uploads| { BusyExactly(hash, front, id); }
    BusyStep(hash, m, events[|events| - 1], id);
  }

  lemma BusyStep(hash: Hash, m: Manager, e: Event, id: UploadId)
    requires S.Safe(hash, m) && id < |Step(m, hash, e).uploads| && (id < |m.uploads| ==> Occupies(m, id))
    ensures Occupies(Step(m, hash, e), id)
  {
    hide S.CommitFits, S.AckFits, S.UploadFits, S.Once, Acceptable, Chunk;
    assert id in m.endings ==> S.EndingFits(hash, m, id);
    if e.ChunkCall? { BusyChunk(hash, m, e.c, e.data, e.outcome, id); }
  }

  lemma BusyChunk(hash: Hash, m: Manager, c: Client, data: seq<byte>, o: Outcome, id: UploadId)
    requires id < |m.uploads| ==> Occupies(m, id)
    requires S.Safe(hash, m)
    ensures |Chunk(m, hash, c, data, o).uploads| == |m.uploads|
    ensures id < |m.uploads| ==> Occupies(Chunk(m, hash, c, data, o), id)
  {
    forall j: nat | j < |m.uploads| && !m.uploads[j].finishing ensures j !in m.endings { S.NotEnding(hash, m, j); }
    hide S.Safe, Wrote, TargetOf;
  }
}
