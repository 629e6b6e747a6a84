/** The store that keeps everything in maps, one method for each operation. */
module MemoryStore {
  import opened Wrappers
  import opened StoreModel
  import opened TaskSafety

  class MemoryStore {
    var deploymentCredentials: map<Id, Credential>
    var enrollments: map<Digest, Enrollment>
    var agentCredentials: map<Digest, DeviceId>
    var tasks: map<Id, Task>
    var revokedUserTokens: map<nat, Time>
    var audits: seq<AuditEvent>

    /** How many random values were drawn. */
    var drawn: nat

    ghost function State(): Db
      reads this
    {
      Db(deploymentCredentials, enrollments, agentCredentials, tasks, revokedUserTokens, audits, drawn)
    }

    constructor ()
      ensures State() == EMPTY
    {
      deploymentCredentials, enrollments, agentCredentials, tasks := map[], map[], map[], map[];
      revokedUserTokens, audits, drawn := map[], [], 0;
    }

    method Audit(actor: Party, action: string, target: Party, now: Time)
      modifies this`audits
      ensures State() == Audited(old(State()), actor, action, target, now)
    {
      audits := audits + [AuditEvent(actor, action, target, now)];
    }

    /** The next random value. */
    method Draw() returns (n: nat)
      modifies this`drawn
      ensures n == old(drawn) && drawn == n + 1
    {
      n := drawn;
      drawn := drawn + 1;
    }

    // ---------------------------------------------------------------- deployment credentials

    method CreateDeploymentCredential(name: string, actor: string, ttl: int, now: Time) returns (reply: Reply)
      modifies this
      ensures (State(), reply) == CreateCredential(old(State()), name, actor, ttl, now)
    {
      hide Trim;
      var trimmed := Trim(name);
      if trimmed == "" || |trimmed| > 80 || ttl < 0 {
        return Failed(InvalidRequest);
      }
      var id := Draw();
      var expiresAt := None;
      if ttl > 0 {
        expiresAt := Some(now + ttl);
      }
      var secret := Draw();
      var token := Deployment(id, secret);
      var credential := Credential(id, trimmed, SCOPE, actor, now, expiresAt, None, None, Digest(token));
      deploymentCredentials := deploymentCredentials[id := credential];
      Audit(ByName(actor), "deployment.credential.create", ByNumber(id), now);
      reply := Created(credential, token);
    }

    method RevokeDeploymentCredential(id: Id, actor: string, now: Time) returns (reply: Reply)
      modifies this
      ensures (State(), reply) == RevokeCredential(old(State()), id, actor, now)
    {
      if id !in deploymentCredentials { return Failed(NotFound); }
      var saved := deploymentCredentials[id];
      if saved.revokedAt.None? {
        saved := saved.(revokedAt := Some(now));
        deploymentCredentials := deploymentCredentials[id := saved];
        Audit(ByName(actor), "deployment.credential.revoke", ByNumber(id), now);
      }
      reply := Revoked(saved);
    }

    method IssueDeploymentEnrollment(token: Token, device: DeviceId, ttl: int, now: Time) returns (reply: Reply)
      modifies this
      ensures (State(), reply) == IssueEnrollment(old(State()), token, device, ttl, now)
    {
      hide DeviceIdRefused;
      if DeviceIdRefused(device) || ttl <= 0 || ttl > MAX_TTL { return Failed(InvalidRequest); }
      if !token.Deployment? { return Failed(InvalidAuth); }
      if token.id !in deploymentCredentials { return Failed(InvalidAuth); }
      var saved := deploymentCredentials[token.id];
      if !Active(saved, now) || saved.hash != Digest(token) { return Failed(InvalidAuth); }
      var expiresAt := now + ttl;
      if saved.expiresAt.Some? && saved.expiresAt.value < expiresAt {
        expiresAt := saved.expiresAt.value;
      }
      var n := Draw();
      var enrollment := Enrollment(device, expiresAt, Some(saved.id));
      enrollments := enrollments[Digest(Random(n)) := enrollment];
      deploymentCredentials := deploymentCredentials[saved.id := saved.(lastUsedAt := Some(now))];
      Audit(ByNumber(saved.id), "deployment.enrollment.create", ByName(device), now);
      reply := Enrolled(Random(n), enrollment);
    }

    // ---------------------------------------------------------------- enrollments and agents

    method CreateEnrollment(device: DeviceId, ttl: int, now: Time) returns (reply: Reply)
      modifies this
      ensures (State(), reply) == StoreModel.CreateEnrollment(old(State()), device, ttl, now)
    {
      var n := Draw();
      var enrollment := Enrollment(device, now + ttl, None);
      enrollments := enrollments[Digest(Random(n)) := enrollment];
      reply := Enrolled(Random(n), enrollment);
    }

    method ExchangeEnrollment(token: Token, device: DeviceId, now: Time) returns (reply: Reply)
      modifies this
      ensures (State(), reply) == StoreModel.ExchangeEnrollment(old(State()), token, device, now)
    {
      if Digest(token) !in enrollments { return Failed(InvalidToken); }
      var enrollment := enrollments[Digest(token)];
      if !(now < enrollment.expiresAt) || (enrollment.device != "" && enrollment.device != device) {
        return Failed(InvalidToken);
      }
      if enrollment.issuer.Some? {
        if enrollment.issuer.value !in deploymentCredentials { return Failed(InvalidToken); }
        if !Active(deploymentCredentials[enrollment.issuer.value], now) { return Failed(InvalidToken); }
      }
      enrollments := enrollments - {Digest(token)};
      var n := Draw();
      agentCredentials := agentCredentials[Digest(Random(n)) := device];
      reply := Admitted(Random(n), device);
    }

    method ValidateAgentToken(token: Token, device: DeviceId) returns (valid: bool)
      ensures valid == AgentValid(State(), token, device)
    {
      valid := Digest(token) in agentCredentials && agentCredentials[Digest(token)] == device;
    }

    // ---------------------------------------------------------------- user tokens

    method RevokeUserToken(digest: nat, expires: Time)
      modifies this
      ensures State() == old(State()).(revoked := old(State()).revoked[digest := expires])
    {
      revokedUserTokens := revokedUserTokens[digest := expires];
    }

    method UserTokenRevoked(digest: nat, now: Time) returns (revoked: bool)
      ensures revoked == TokenRevoked(State(), digest, now)
    {
      revoked := digest in revokedUserTokens && now < revokedUserTokens[digest];
    }

    // ---------------------------------------------------------------- tasks

    method CreateTask(task: Task, now: Time) returns (reply: Reply)
      modifies this
      ensures (State(), reply) == StoreModel.CreateTask(old(State()), task, now)
    {
      var id := drawn;
      if task.kind == "" || task.devices == map[] { return Failed(NotFound); }
      drawn := drawn + 1;
      var at := if task.createdAt == ZERO_TIME then now else task.createdAt;
      var devices, left := task.devices, task.devices.Keys;
      while left != {}
        invariant left <= task.devices.Keys && devices.Keys == task.devices.Keys
        invariant forall d | d in devices ::
          devices[d] == if d in left then task.devices[d] else task.devices[d].(status := Queued, updatedAt := at)
        decreases left
      {
        var d :| d in left;
        devices := devices[d := devices[d].(status := Queued, updatedAt := at)];
        left := left - {d};
      }
      var stored := task.(createdAt := at, devices := devices);
      assert devices == map d | d in task.devices :: task.devices[d].(status := Queued, updatedAt := at);
      tasks := tasks[id := stored];
      reply := Granted(id, stored);
    }

    /** The pending tasks of a device, by rising number and without repetition. */
    method PendingTasks(device: DeviceId, now: Time) returns (ids: seq<Id>)
      ensures (set id | id in ids) == StoreModel.PendingTasks(State(), device, now)
      ensures forall i, j | 0 <= i < j < |ids| :: ids[i] < ids[j]
    {
      hide QueuedFor;
      ids := [];
      var left := tasks.Keys;
      while left != {}
        invariant left <= tasks.Keys
        invariant forall id :: id in ids <==> id in StoreModel.PendingTasks(State(), device, now) && id !in left
        invariant forall i, j | 0 <= i < j < |ids| :: ids[i] < ids[j]
        decreases left
      {
        var id :| id in left;
        left := left - {id};
        if !(now > tasks[id].expiresAt) && QueuedFor(tasks[id], device) {
          ids := Inserted(ids, id);
        }
      }
    }

    method ClaimTask(id: Id, device: DeviceId, now: Time) returns (reply: Reply)
      modifies this
      ensures (State(), reply) == StoreModel.ClaimTask(old(State()), id, device, now)
    {
      if id !in tasks { return Failed(NotFound); }
      var task := tasks[id];
      if task.expiresAt != ZERO_TIME && now > task.expiresAt { return Failed(InvalidToken); }
      if device !in task.devices || task.devices[device].status != Queued { return Failed(Forbidden); }
      var taken := task.devices[device].(status := Leased, updatedAt := now);
      task := task.(devices := task.devices[device := taken]);
      tasks := tasks[id := task];
      reply := Granted(id, task);
    }

    method SetTaskStatus(id: Id, device: DeviceId, status: Status, result: string, now: Time) returns (reply: Reply)
      modifies this
      ensures (State(), reply) == StoreModel.SetTaskStatus(old(State()), id, device, status, result, now)
    {
      if id !in tasks { return Failed(NotFound); }
      var task := tasks[id];
      if device !in task.devices { return Failed(NotFound); }
      task := task.(devices := task.devices[device := TaskDevice(status, result, now)]);
      tasks := tasks[id := task];
      reply := Granted(id, task);
    }

    method MarkLeasedUnknown(device: DeviceId, now: Time)
      modifies this
      ensures State() == StoreModel.MarkLeasedUnknown(old(State()), device, now)
    {
      hide Abandoned;
      ghost var was := tasks;
      var left := tasks.Keys;
      while left != {}
        invariant left <= was.Keys && tasks.Keys == was.Keys
        invariant State() == old(State()).(tasks := tasks)
        invariant forall id | id in tasks ::
          tasks[id] == if id in left then was[id] else Abandoned(was[id], device, now)
        decreases left
      {
        var id :| id in left;
        left := left - {id};
        var task := AbandonTask(tasks[id], device, now);
        tasks := tasks[id := task];
      }
      assert tasks == map id | id in was :: Abandoned(was[id], device, now);
    }

    static method AbandonTask(t: Task, device: DeviceId, now: Time) returns (r: Task)
      ensures r == Abandoned(t, device, now)
    {
      r := t;
      if device in t.devices && (t.devices[device].status == Leased || t.devices[device].status == Running) {
        r := t.(devices := t.devices[device := TaskDevice(Unknown, "agent disconnected after claim", now)]);
      }
    }

    // ---------------------------------------------------------------- cleaning

    method CleanRevoked(now: Time)
      modifies this`revokedUserTokens
      ensures revokedUserTokens == map t | t in old(revokedUserTokens) && now < old(revokedUserTokens)[t] ::
        old(revokedUserTokens)[t]
    {
      ghost var was := revokedUserTokens;
      var left := revokedUserTokens.Keys;
      while left != {}
        invariant left <= revokedUserTokens.Keys
        invariant revokedUserTokens == map t | t in was && (t in left || now < was[t]) :: was[t]
        decreases left
      {
        var t :| t in left;
        left := left - {t};
        if !(now < revokedUserTokens[t]) {
          revokedUserTokens := revokedUserTokens - {t};
        }
      }
    }

    method CleanEnrollments(now: Time)
      modifies this`enrollments
      ensures enrollments == map t | t in old(enrollments) && now < old(enrollments)[t].expiresAt :: old(enrollments)[t]
    {
      ghost var was := enrollments;
      var left := enrollments.Keys;
      while left != {}
        invariant left <= enrollments.Keys
        invariant enrollments == map t | t in was && (t in left || now < was[t].expiresAt) :: was[t]
        decreases left
      {
        var t :| t in left;
        left := left - {t};
        if !(now < enrollments[t].expiresAt) {
          enrollments := enrollments - {t};
        }
      }
    }

    static method ExpireQueued(t: Task, now: Time) returns (r: Task)
      ensures r == ExpireTask(t, now)
    {
      if !(t.expiresAt != ZERO_TIME && now > t.expiresAt) { return t; }
      var devices, left := t.devices, t.devices.Keys;
      while left != {}
        invariant left <= t.devices.Keys && devices.Keys == t.devices.Keys
        invariant forall d | d in devices ::
          devices[d] == if d in left then t.devices[d] else ExpireDevice(t.devices[d], now)
        decreases left
      {
        var d :| d in left;
        left := left - {d};
        if devices[d].status == Queued {
          devices := devices[d := devices[d].(status := Expired, updatedAt := now)];
        }
      }
      assert devices == map d | d in t.devices :: ExpireDevice(t.devices[d], now);
      r := t.(devices := devices);
    }

    method CleanTasks(now: Time)
      modifies this`tasks
      ensures tasks == map id | id in old(tasks) :: ExpireTask(old(tasks)[id], now)
    {
      hide ExpireTask;
      ghost var was := tasks;
      var left := tasks.Keys;
      while left != {}
        invariant left <= was.Keys && tasks.Keys == was.Keys
        invariant forall id | id in tasks :: tasks[id] == if id in left then was[id] else ExpireTask(was[id], now)
        decreases left
      {
        var id :| id in left;
        left := left - {id};
        var task := ExpireQueued(tasks[id], now);
        tasks := tasks[id := task];
      }
    }

    method CleanAudits(before: Time)
      modifies this`audits
      ensures audits == Recent(old(audits), before)
    {
      var kept := [];
      for i := 0 to |audits|
        invariant kept == Recent(audits[..i], before)
      {
        assert audits[..i + 1][..i] == audits[..i];
        if audits[i].createdAt > before {
          kept := kept + [audits[i]];
        }
      }
      assert audits[..|audits|] == audits;
      audits := kept;
    }

    method Clean(before: Time, now: Time)
      modifies this
      ensures State() == StoreModel.Clean(old(State()), before, now)
    {
      hide Recent, ExpireTask;
      CleanRevoked(now);
      CleanEnrollments(now);
      CleanTasks(now);
      CleanAudits(before);
    }
  }

  /** Puts a number in its place in a rising sequence, once. */
  function Inserted(s: seq<Id>, x: Id): (r: seq<Id>)
    requires forall i, j | 0 <= i < j < |s| :: s[i] < s[j]
    ensures forall i, j | 0 <= i < j < |r| :: r[i] < r[j]
    ensures forall y :: y in r <==> y in s || y == x
  {
    if s == [] then [x]
    else if x < s[0] then [x] + s
    else if x == s[0] then s
    else
      var rest := Inserted(s[1..], x);
      assert forall j | 0 <= j < |rest| :: s[0] < rest[j] by {
        assert forall j | 0 <= j < |rest| :: rest[j] in rest;
        assert forall y | y in s[1..] :: s[0] < y;
      }
      [s[0]] + rest
  }

  // ---------------------------------------------------------------- the server's side

  /**
   * The server that receives the agents' messages about tasks and sends them what they claimed. The handling of a claim
   * is two sections of one goroutine, with others in between; claims holds what that goroutine has in its hands.
   */
  class Server {
    const store: MemoryStore
    var claims: map<Connection, Lease>
    var dispatched: seq<Dispatch>

    ghost function State(): TaskSafety.Server
      reads this, store
    {
      TaskSafety.Server(store.State(), claims, dispatched)
    }

    constructor (store: MemoryStore)
      requires store.State() == EMPTY
      ensures this.store == store && State() == Serve([])
    {
      this.store, claims, dispatched := store, map[], [];
    }

    method HandleTaskClaim(from: Connection, id: Id, now: Time)
      requires from !in claims
      modifies this, store
      ensures State() == Handle(old(State()), from, TaskClaim(id), now)
    {
      hide StoreModel.ClaimTask;
      var reply := store.ClaimTask(id, from.device, now);
      ClaimRefused(old(store.State()), id, from.device, now);
      if !reply.Granted? { return; }
      claims := claims[from := Lease(id, now)];
    }

    /** The rest of it: the asset was looked up, and the task is dispatched or has failed. */
    method AnswerTaskClaim(from: Connection, assetReady: bool, now: Time)
      requires from in claims
      modifies this, store
      ensures State() == Handle(old(State()), from, AnswerClaim(assetReady), now)
    {
      hide StoreModel.SetTaskStatus;
      var lease := claims[from];
      claims := claims - {from};
      if !assetReady {
        var _ := store.SetTaskStatus(lease.id, from.device, Failure, "asset unavailable", now);
        return;
      }
      dispatched := dispatched + [Dispatch(lease.id, from.device, lease.at, now)];
    }

    method HandleTaskStarted(from: Connection, id: Id, now: Time)
      requires from !in claims
      modifies this, store
      ensures State() == Handle(old(State()), from, TaskStarted(id), now)
    {
      hide StoreModel.SetTaskStatus;
      var _ := store.SetTaskStatus(id, from.device, Running, "", now);
    }

    method HandleTaskResult(from: Connection, id: Id, success: bool, result: string, now: Time)
      requires from !in claims
      modifies this, store
      ensures State() == Handle(old(State()), from, TaskResult(id, success, result), now)
    {
      hide StoreModel.SetTaskStatus;
      var status := Failure;
      if success {
        status := Success;
      }
      var _ := store.SetTaskStatus(id, from.device, status, result, now);
    }
  }

  lemma ClaimRefused(db: Db, id: Id, device: DeviceId, now: Time)
    ensures !StoreModel.ClaimTask(db, id, device, now).1.Granted? ==> StoreModel.ClaimTask(db, id, device, now).0 == db
  {
  }
}
