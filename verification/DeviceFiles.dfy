/** The device file manager's methods, each a section under its lock or the work done between two of them. */
module DeviceFiles {
  import opened JsNumbers
  import opened Wrappers
  import opened UploadModel

  class DeviceFileManager {
    const hash: seq<byte> -> Digest
    var closed: bool
    var sessions: map<Client, SessionId>
    var objects: seq<Session>
    var uploads: seq<Upload>
    var endings: map<UploadId, Ending>
    var committed: seq<Commit>
    var acks: seq<Ack>
    var installs: seq<UploadId>

    ghost function State(): Manager
      reads this
    {
      Manager(closed, sessions, objects, uploads, endings, committed, acks, installs)
    }

    constructor (hash: seq<byte> -> Digest)
      ensures State() == NEW && this.hash == hash
    {
      this.hash := hash;
      closed, sessions, objects, uploads, endings, committed, acks, installs := false, map[], [], [], map[], [], [], [];
    }

    method OpenSession(c: Client)
      modifies this
      ensures State() == Open(old(State()), c)
    {
      if closed { return; }
      if c !in sessions {
        sessions := sessions[c := |objects|];
        objects := objects + [Session(c, false, None)];
      }
    }

    method CloseClientSession(c: Client)
      modifies this
      ensures State() == CloseClient(old(State()), c)
    {
      if c in sessions {
        var s := sessions[c];
        if s < |objects| {
          objects := objects[s := objects[s].(cancelled := true)];
        }
        sessions := sessions - {c};
      }
    }

    method CloseManager()
      modifies this
      ensures State() == Close(old(State()))
    {
      closed := true;
      ghost var was, open := objects, sessions;
      while sessions.Keys != {}
        invariant sessions.Keys <= open.Keys && forall c | c in sessions :: sessions[c] == open[c]
        invariant |objects| == |was|
        invariant forall i | 0 <= i < |was| ::
          objects[i] == was[i] || (objects[i] == was[i].(cancelled := true) && i in open.Values)
        invariant forall c | c in open && c !in sessions && open[c] < |was| ::
          objects[open[c]] == was[open[c]].(cancelled := true)
        invariant State() == old(State()).(closed := true, sessions := sessions, objects := objects)
        decreases sessions.Keys
      {
        var c :| c in sessions;
        var s := sessions[c];
        if s < |objects| {
          objects := objects[s := objects[s].(cancelled := true)];
        }
        sessions := sessions - {c};
      }
      assert objects == Close(old(State())).objects;
    }

    method StartUpload(c: Client, s: SessionId, r: Request) returns (started: bool)
      modifies this
      ensures State() == UploadModel.StartUpload(old(State()), c, s, r)
      ensures started <==> Acceptable(r) && CanStart(old(State()), c, s)
    {
      if r.size < 0 || r.size > MAX_FILE_SIZE { return false; }
      if r.checksum.None? || |r.checksum.value| != 32 { return false; }
      if c !in sessions || sessions[c] != s || s >= |objects| { return false; }
      if objects[s].cancelled || objects[s].upload.Some? { return false; }
      var upload := Upload(s, r.path, r.size, r.checksum.value, r.install, [], [], 0, false);
      objects := objects[s := objects[s].(upload := Some(|uploads|))];
      uploads := uploads + [upload];
      started := true;
    }

    /** A chunk for the client's upload; what the device makes of it is given. */
    method ReceiveChunk(c: Client, data: seq<byte>, o: Outcome)
      modifies this
      ensures State() == Chunk(old(State()), hash, c, data, o)
    {
      if c !in sessions || sessions[c] >= |objects| { return; }
      var target := objects[sessions[c]].upload;
      if target.None? || target.value >= |uploads| || uploads[target.value].finishing { return; }
      var id := target.value;
      var upload, failed := WriteChunk(uploads[id], data, o);
      var finished := failed || upload.uploaded == upload.size;
      if finished {
        upload := upload.(finishing := true);
        if !failed && hash(upload.absorbed) != upload.checksum {
          failed := true;
        }
        if !failed && !o.synced {
          failed := true;
        }
        endings := endings[id := Committing(!failed)];
      } else {
        acks := acks + [Ack(id, upload.uploaded, false, true)];
      }
      uploads := uploads[id := upload];
    }

    /** Writes a chunk to the staged file and the hash. */
    static method WriteChunk(u: Upload, data: seq<byte>, o: Outcome) returns (v: Upload, failed: bool)
      ensures v == Accepted(u, data, o) && failed == !Wrote(u, data, o)
    {
      v := u;
      if |data| > MAX_CHUNK || u.uploaded + |data| > u.size { return v, true; }
      var count := if o.count < |data| then o.count else |data|;
      failed := !o.written || count != |data|;
      v := v.(content := v.content + data[..count]);
      v := v.(absorbed := v.absorbed + data[..count]);
      v := v.(uploaded := v.uploaded + count);
    }

    /** The commit of a finished upload, which holds no lock. */
    method CommitUpload(id: UploadId, succeeds: bool)
      requires id in endings && endings[id].Committing? && id < |uploads|
      modifies this
      ensures State() == CommitStep(old(State()), id, succeeds)
    {
      var good := endings[id].good;
      if good {
        if succeeds {
          committed := committed + [Commit(id, uploads[id].content)];
        } else {
          good := false;
        }
      }
      endings := endings[id := Clearing(good)];
    }

    /** The finished upload leaves its session; its outcome is reported, and an install follows if it was asked for. */
    method FinishUpload(id: UploadId)
      requires id in endings && endings[id].Clearing? && id < |uploads|
      modifies this
      ensures State() == ClearStep(old(State()), id)
    {
      var u, good := uploads[id], endings[id].good;
      if u.session < |objects| && objects[u.session].upload == Some(id) {
        objects := objects[u.session := objects[u.session].(upload := None)];
      }
      endings := endings[id := Over];
      acks := acks + [Ack(id, u.uploaded, true, good)];
      if good && u.install {
        installs := installs + [id];
      }
    }
  }
}
