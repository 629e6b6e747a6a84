/** Cleaning the store frees space and changes no later answer but one: what a status change shows of other devices. */
module CleanSafety {
  import opened StoreModel

  // ---------------------------------------------------------------- stores that differ only in what has expired

  predicate RevokedWithin(a: map<nat, Time>, b: map<nat, Time>, t: Time) {
    forall k | k in a && t < a[k] :: k in b && b[k] == a[k]
  }

  predicate EnrolledWithin(a: map<Digest, Enrollment>, b: map<Digest, Enrollment>, t: Time) {
    forall k | k in a && t < a[k].expiresAt :: k in b && b[k] == a[k]
  }

  /** On the cleaned side a queued device may be marked expired, or marked at another time. */
  predicate DeviceAgrees(p: TaskDevice, q: TaskDevice) {
    p == q || (q.status == Expired && (p.status == Queued || p.status == Expired) && p.result == q.result)
  }

  /** A task is the same, or past its expiry with some queued devices marked expired. */
  predicate TaskAgrees(x: Task, y: Task, t: Time) {
    x == y
    || (PastExpiry(x, t) && y == x.(devices := y.devices) && x.devices.Keys == y.devices.Keys
        && forall d | d in x.devices :: DeviceAgrees(x.devices[d], y.devices[d]))
  }

  predicate TasksAgree(a: map<Id, Task>, b: map<Id, Task>, t: Time) {
    a.Keys == b.Keys && forall id | id in a :: TaskAgrees(a[id], b[id], t)
  }

  /** Two stores hold the same live data at an instant. Audits are no part of the answers. */
  predicate Agree(a: Db, b: Db, t: Time) {
    && a.credentials == b.credentials && a.agents == b.agents && a.drawn == b.drawn
    && RevokedWithin(a.revoked, b.revoked, t) && RevokedWithin(b.revoked, a.revoked, t)
    && EnrolledWithin(a.enrollments, b.enrollments, t) && EnrolledWithin(b.enrollments, a.enrollments, t)
    && TasksAgree(a.tasks, b.tasks, t)
  }

  /** Answers are equal; those to a status change, which show the whole task, agree as the tasks do. */
  predicate AnswersAgree(c: Call, r: Reply, q: Reply) {
    if c.op.DoSetStatus? && r.Granted? && q.Granted? then r.id == q.id && TaskAgrees(r.task, q.task, c.now) else r == q
  }

  lemma AgreeLater(a: Db, b: Db, t: Time, now: Time)
    requires Agree(a, b, t) && t <= now
    ensures Agree(a, b, now)
  {
    assert forall id | id in a.tasks :: TaskAgrees(a.tasks[id], b.tasks[id], t);
  }

  lemma ExpiredDevices(t: Task, now: Time)
    requires PastExpiry(t, now)
    ensures ExpireTask(t, now) == t.(devices := ExpireTask(t, now).devices)
    ensures ExpireTask(t, now).devices.Keys == t.devices.Keys
    ensures forall d | d in t.devices :: ExpireTask(t, now).devices[d] == ExpireDevice(t.devices[d], now)
  {
    hide PastExpiry, ExpireDevice;
  }

  lemma ExpiringAgrees(t: Task, now: Time)
    ensures TaskAgrees(t, ExpireTask(t, now), now)
  {
    hide PastExpiry, ExpireTask;
    if PastExpiry(t, now) { ExpiredDevices(t, now); } else { StillValid(t, now); }
  }

  lemma StillValid(t: Task, now: Time)
    requires !PastExpiry(t, now)
    ensures ExpireTask(t, now) == t
  {
  }

  lemma ExpiringBothAgrees(x: Task, y: Task, now: Time)
    requires TaskAgrees(x, y, now)
    ensures TaskAgrees(ExpireTask(x, now), ExpireTask(y, now), now)
  {
    hide ExpireTask;
    if x != y {
      ExpiredDevices(x, now);
      ExpiredDevices(y, now);
    }
  }

  lemma AbandoningAgrees(x: Task, y: Task, device: DeviceId, now: Time)
    requires TaskAgrees(x, y, now)
    ensures TaskAgrees(Abandoned(x, device, now), Abandoned(y, device, now), now)
  {
    if device in x.devices && device in y.devices && x != y {
      assert DeviceAgrees(x.devices[device], y.devices[device]);
    }
  }

  lemma CleanAgrees(a: Db, before: Time, now: Time)
    ensures Agree(a, Clean(a, before, now), now)
  {
    hide Recent, ExpireTask, TaskAgrees;
    forall id | id in a.tasks ensures TaskAgrees(a.tasks[id], ExpireTask(a.tasks[id], now), now) {
      ExpiringAgrees(a.tasks[id], now);
    }
  }

  // ---------------------------------------------------------------- calls keep agreement

  lemma ExchangeAgrees(a: Db, b: Db, token: Token, device: DeviceId, now: Time)
    requires Agree(a, b, now)
    ensures Agree(ExchangeEnrollment(a, token, device, now).0, ExchangeEnrollment(b, token, device, now).0, now)
    ensures ExchangeEnrollment(a, token, device, now).1 == ExchangeEnrollment(b, token, device, now).1
  {
    hide Active, TasksAgree, RevokedWithin;
    assert CanExchange(a, token, device, now) == CanExchange(b, token, device, now);
  }

  lemma CreateCredentialAgrees(a: Db, b: Db, name: string, actor: string, ttl: int, now: Time)
    requires Agree(a, b, now)
    ensures Agree(CreateCredential(a, name, actor, ttl, now).0, CreateCredential(b, name, actor, ttl, now).0, now)
    ensures CreateCredential(a, name, actor, ttl, now).1 == CreateCredential(b, name, actor, ttl, now).1
  {
    hide TasksAgree, RevokedWithin, EnrolledWithin, CredentialRefused, Trim;
  }

  lemma RevokeCredentialAgrees(a: Db, b: Db, id: Id, actor: string, now: Time)
    requires Agree(a, b, now)
    ensures Agree(RevokeCredential(a, id, actor, now).0, RevokeCredential(b, id, actor, now).0, now)
    ensures RevokeCredential(a, id, actor, now).1 == RevokeCredential(b, id, actor, now).1
  {
    hide TasksAgree, RevokedWithin, EnrolledWithin;
  }

  lemma IssueAgrees(a: Db, b: Db, token: Token, device: DeviceId, ttl: int, now: Time)
    requires Agree(a, b, now)
    ensures Agree(IssueEnrollment(a, token, device, ttl, now).0, IssueEnrollment(b, token, device, ttl, now).0, now)
    ensures IssueEnrollment(a, token, device, ttl, now).1 == IssueEnrollment(b, token, device, ttl, now).1
  {
    hide Active, TasksAgree, RevokedWithin, DeviceIdRefused, Earlier;
  }

  lemma CreateEnrollmentAgrees(a: Db, b: Db, device: DeviceId, ttl: int, now: Time)
    requires Agree(a, b, now)
    ensures Agree(CreateEnrollment(a, device, ttl, now).0, CreateEnrollment(b, device, ttl, now).0, now)
    ensures CreateEnrollment(a, device, ttl, now).1 == CreateEnrollment(b, device, ttl, now).1
  {
    hide TasksAgree, RevokedWithin;
  }

  lemma TokenAgrees(a: Db, b: Db, c: Call)
    requires Agree(a, b, c.now)
    requires
      || c.op.DoRevokeUserToken? || c.op.DoUserTokenRevoked? || c.op.DoValidateAgent?
      || c.op.DoAudit? || c.op.DoSkip?
    ensures Agree(Apply(a, c).0, Apply(b, c).0, c.now) && Apply(a, c).1 == Apply(b, c).1
  {
    hide TasksAgree, EnrolledWithin;
  }

  lemma ClaimAgrees(a: Db, b: Db, id: Id, device: DeviceId, now: Time)
    requires Agree(a, b, now)
    ensures Agree(ClaimTask(a, id, device, now).0, ClaimTask(b, id, device, now).0, now)
    ensures ClaimTask(a, id, device, now).1 == ClaimTask(b, id, device, now).1
  {
    hide RevokedWithin, EnrolledWithin, QueuedFor;
    if id in a.tasks { assert TaskAgrees(a.tasks[id], b.tasks[id], now); }
  }

  lemma StatusTaskAgrees(x: Task, y: Task, device: DeviceId, status: Status, result: string, now: Time)
    requires TaskAgrees(x, y, now)
    ensures device in x.devices <==> device in y.devices
    ensures TaskAgrees(WithStatus(x, device, status, result, now), WithStatus(y, device, status, result, now), now)
  {
    assert x.devices.Keys == y.devices.Keys;
  }

  lemma StatusAgrees(a: Db, b: Db, id: Id, device: DeviceId, status: Status, result: string, now: Time)
    requires Agree(a, b, now)
    ensures Agree(SetTaskStatus(a, id, device, status, result, now).0,
                  SetTaskStatus(b, id, device, status, result, now).0, now)
    ensures
      var r := SetTaskStatus(a, id, device, status, result, now).1;
      var q := SetTaskStatus(b, id, device, status, result, now).1;
      if r.Granted? && q.Granted? then r.id == q.id && TaskAgrees(r.task, q.task, now) else r == q
  {
    hide RevokedWithin, EnrolledWithin, TaskAgrees, WithStatus;
    if id in a.tasks {
      StatusTaskAgrees(a.tasks[id], b.tasks[id], device, status, result, now);
    }
  }

  lemma PendingAgrees(a: Db, b: Db, device: DeviceId, now: Time)
    requires Agree(a, b, now) && now > ZERO_TIME
    ensures PendingTasks(a, device, now) == PendingTasks(b, device, now)
  {
    hide RevokedWithin, EnrolledWithin, QueuedFor;
    forall id | id in a.tasks
      ensures id in PendingTasks(a, device, now) <==> id in PendingTasks(b, device, now)
    {
      assert TaskAgrees(a.tasks[id], b.tasks[id], now);
    }
  }

  lemma CreateTaskAgrees(a: Db, b: Db, task: Task, now: Time)
    requires Agree(a, b, now)
    ensures Agree(CreateTask(a, task, now).0, CreateTask(b, task, now).0, now)
    ensures CreateTask(a, task, now).1 == CreateTask(b, task, now).1
  {
    hide RevokedWithin, EnrolledWithin;
  }

  lemma AbandonAgrees(a: Db, b: Db, device: DeviceId, now: Time)
    requires Agree(a, b, now)
    ensures Agree(MarkLeasedUnknown(a, device, now), MarkLeasedUnknown(b, device, now), now)
  {
    hide RevokedWithin, EnrolledWithin, Abandoned, TaskAgrees;
    forall id | id in a.tasks
      ensures TaskAgrees(Abandoned(a.tasks[id], device, now), Abandoned(b.tasks[id], device, now), now)
    {
      AbandoningAgrees(a.tasks[id], b.tasks[id], device, now);
    }
  }

  lemma CleaningAgrees(a: Db, b: Db, before: Time, now: Time)
    requires Agree(a, b, now)
    ensures Agree(Clean(a, before, now), Clean(b, before, now), now)
  {
    hide Recent, ExpireTask, TaskAgrees;
    forall id | id in a.tasks ensures TaskAgrees(ExpireTask(a.tasks[id], now), ExpireTask(b.tasks[id], now), now) {
      ExpiringBothAgrees(a.tasks[id], b.tasks[id], now);
    }
  }

  /** A call gives agreeing stores the same answer and leaves them in agreement. */
  lemma CallAgrees(a: Db, b: Db, c: Call)
    requires Agree(a, b, c.now) && c.now > ZERO_TIME
    ensures Agree(Apply(a, c).0, Apply(b, c).0, c.now)
    ensures AnswersAgree(c, Apply(a, c).1, Apply(b, c).1)
  {
    hide Agree, CreateCredential, RevokeCredential, IssueEnrollment, CreateEnrollment, ExchangeEnrollment, AgentValid;
    hide TokenRevoked, CreateTask, PendingTasks, ClaimTask, SetTaskStatus, MarkLeasedUnknown, Clean, Audited;
    match c.op
    case DoExchange(token, device) => ExchangeAgrees(a, b, token, device, c.now);
    case DoCreateTask(task) => CreateTaskAgrees(a, b, task, c.now);
    case DoPendingTasks(device) => PendingAgrees(a, b, device, c.now);
    case DoClaim(id, device) => ClaimAgrees(a, b, id, device, c.now);
    case DoSetStatus(id, device, status, result) => StatusAgrees(a, b, id, device, status, result, c.now);
    case DoMarkLeasedUnknown(device) => AbandonAgrees(a, b, device, c.now);
    case DoClean(before) => CleaningAgrees(a, b, before, c.now);
    case DoCreateCredential(name, actor, ttl) => CreateCredentialAgrees(a, b, name, actor, ttl, c.now);
    case DoRevokeCredential(id, actor) => RevokeCredentialAgrees(a, b, id, actor, c.now);
    case DoIssueEnrollment(token, device, ttl) => IssueAgrees(a, b, token, device, ttl, c.now);
    case DoCreateEnrollment(device, ttl) => CreateEnrollmentAgrees(a, b, device, ttl, c.now);
    case _ => TokenAgrees(a, b, c);
  }

  // ---------------------------------------------------------------- runs

  function WithClean(first: seq<Call>, before: Time, now: Time, rest: seq<Call>): seq<Call> {
    first + [Call(DoClean(before), now)] + rest
  }

  lemma {:induction false} AfterClean(first: seq<Call>, before: Time, now: Time, rest: seq<Call>, t: Time)
    requires Monotone(WithClean(first, before, now, rest))
    requires t >= (if rest == [] then now else rest[|rest| - 1].now)
    ensures Agree(After(first + rest), After(WithClean(first, before, now, rest)), t)
    decreases |rest|
  {
    hide Apply, Agree;
    var all := WithClean(first, before, now, rest);
    if rest == [] {
      assert first + rest == first && all[..|all| - 1] == first && all[|all| - 1] == Call(DoClean(before), now);
      CleanIsCall(After(first), before, now);
      CleanAgrees(After(first), before, now);
      AgreeLater(After(first), Clean(After(first), before, now), now, t);
    } else {
      var front, last := rest[..|rest| - 1], rest[|rest| - 1];
      assert all[..|all| - 1] == WithClean(first, before, now, front) && all[|all| - 1] == last;
      assert (first + rest)[..|first + rest| - 1] == first + front && (first + rest)[|first + rest| - 1] == last;
      MonotoneFront(all);
      assert all[|first|].now == now;
      assert front != [] ==> all[|all| - 2] == front[|front| - 1];
      AfterClean(first, before, now, front, last.now);
      CallAgrees(After(first + front), After(WithClean(first, before, now, front)), last);
      AgreeLater(After(first + rest), After(all), last.now, t);
    }
  }

  lemma CleanIsCall(db: Db, before: Time, now: Time)
    ensures Apply(db, Call(DoClean(before), now)).0 == Clean(db, before, now)
  {
  }

  lemma MonotoneFront(calls: seq<Call>)
    requires Monotone(calls) && calls != []
    ensures Monotone(calls[..|calls| - 1])
  {
  }

  /**
   * Cleaning at any moment of a run changes no later answer of an exchange, a revocation check, a claim, a list of
   * pending tasks or any other call, but for the task a status change returns: past its expiry, other devices that
   * were queued may be shown as expired.
   */
  lemma CleanUnobservable(first: seq<Call>, before: Time, now: Time, rest: seq<Call>, i: nat)
    requires Monotone(WithClean(first, before, now, rest)) && i < |rest|
    ensures AnswersAgree(rest[i], ReplyTo(first + rest, |first| + i),
                         ReplyTo(WithClean(first, before, now, rest), |first| + 1 + i))
  {
    hide Apply, Agree;
    var all := WithClean(first, before, now, rest);
    assert all[..|first| + 1 + i] == WithClean(first, before, now, rest[..i]);
    assert (first + rest)[..|first| + i] == first + rest[..i];
    assert all[|first| + 1 + i] == rest[i] && (first + rest)[|first| + i] == rest[i];
    MonotonePrefix(all, |first| + 1 + i);
    assert all[|first|].now == now;
    assert i > 0 ==> all[|first| + i] == rest[i - 1] && rest[..i][i - 1] == rest[i - 1];
    AfterClean(first, before, now, rest[..i], rest[i].now);
    CallAgrees(After(first + rest[..i]), After(all[..|first| + 1 + i]), rest[i]);
  }

  lemma MonotonePrefix(calls: seq<Call>, i: nat)
    requires Monotone(calls) && i <= |calls|
    ensures Monotone(calls[..i])
  {
  }

  /** A status change shows the cleaning exactly when its task is past its expiry and another device was queued. */
  lemma StatusShowsCleaning(db: Db, before: Time, now: Time, id: Id, device: DeviceId, status: Status,
                            result: string, later: Time)
    ensures
      SetTaskStatus(Clean(db, before, now), id, device, status, result, later).1
        != SetTaskStatus(db, id, device, status, result, later).1
      <==> (id in db.tasks && device in db.tasks[id].devices && PastExpiry(db.tasks[id], now)
            && exists d :: d != device && QueuedFor(db.tasks[id], d))
  {
    hide PastExpiry, Recent, ExpireTask;
    assert Clean(db, before, now).tasks.Keys == db.tasks.Keys;
    if id in db.tasks {
      assert Clean(db, before, now).tasks[id] == ExpireTask(db.tasks[id], now);
      TaskShowsCleaning(db.tasks[id], now, device, status, result, later);
      if !PastExpiry(db.tasks[id], now) {
        StillValid(db.tasks[id], now);
      } else {
        ExpiredDevices(db.tasks[id], now);
      }
    }
  }

  lemma TaskShowsCleaning(x: Task, now: Time, device: DeviceId, status: Status, result: string, later: Time)
    ensures
      WithStatus(ExpireTask(x, now), device, status, result, later) != WithStatus(x, device, status, result, later)
      <==> (PastExpiry(x, now) && exists d :: d != device && QueuedFor(x, d))
  {
    hide PastExpiry, ExpireTask;
    var y := ExpireTask(x, now);
    var p, q := WithStatus(x, device, status, result, later), WithStatus(y, device, status, result, later);
    if !PastExpiry(x, now) {
      StillValid(x, now);
    } else {
      ExpiredDevices(x, now);
      if d :| d != device && QueuedFor(x, d) {
        assert p.devices[d].status == Queued && q.devices[d].status == Expired;
      } else {
        forall d | d in p.devices ensures q.devices[d] == p.devices[d] {
          assert d != device ==> !QueuedFor(x, d);
        }
        assert p.devices == q.devices;
      }
    }
  }

  // ---------------------------------------------------------------- what goes

  /** Exactly the enrollments and revocations whose time is over go, and the others stay as they are. */
  lemma ExpiredGo(db: Db, before: Time, now: Time)
    ensures
      var r := Clean(db, before, now);
      && (forall g :: g in r.enrollments <==> g in db.enrollments && db.enrollments[g].expiresAt > now)
      && (forall g | g in r.enrollments :: r.enrollments[g] == db.enrollments[g])
      && (forall t :: t in r.revoked <==> t in db.revoked && db.revoked[t] > now)
      && (forall t | t in r.revoked :: r.revoked[t] == db.revoked[t])
      && r.credentials == db.credentials && r.agents == db.agents && r.drawn == db.drawn
  {
    hide Recent, ExpireTask;
  }

  /** The devices that still wait for a task whose time is over are marked, and nothing else of any task changes. */
  lemma ExpiredMarked(db: Db, before: Time, now: Time, id: Id, device: DeviceId)
    requires id in db.tasks && device in db.tasks[id].devices
    ensures
      var t, r := db.tasks[id], Clean(db, before, now);
      var was := t.devices[device];
      && r.tasks.Keys == db.tasks.Keys && r.tasks[id] == t.(devices := r.tasks[id].devices)
      && r.tasks[id].devices.Keys == t.devices.Keys
      && r.tasks[id].devices[device] ==
           if t.expiresAt != 0 && now > t.expiresAt && was.status.Queued? then TaskDevice(Expired, was.result, now)
           else was
  {
    hide Recent;
  }

  // ---------------------------------------------------------------- audit events

  /** Cleaning keeps an audit event as often as it was there if it is newer than the given time, and no other one. */
  lemma AuditsKept(db: Db, before: Time, now: Time, a: AuditEvent)
    ensures multiset(Clean(db, before, now).audits)[a] == if a.createdAt > before then multiset(db.audits)[a] else 0
  {
    hide ExpireTask;
    RecentCounts(db.audits, before, a);
  }

  lemma {:induction false} RecentCounts(audits: seq<AuditEvent>, before: Time, a: AuditEvent)
    ensures multiset(Recent(audits, before))[a] == if a.createdAt > before then multiset(audits)[a] else 0
  {
    if audits != [] {
      RecentCounts(audits[..|audits| - 1], before, a);
      assert audits == audits[..|audits| - 1] + [audits[|audits| - 1]];
    }
  }

  /** And it keeps them in order: what is kept of two stretches is what is kept of the first and then of the second. */
  lemma {:induction false} AuditsInOrder(first: seq<AuditEvent>, second: seq<AuditEvent>, before: Time)
    ensures Recent(first + second, before) == Recent(first, before) + Recent(second, before)
    decreases |second|
  {
    if second == [] {
      assert first + second == first;
    } else {
      var front, last := second[..|second| - 1], second[|second| - 1];
      AuditsInOrder(first, front, before);
      assert (first + second)[..|first + second| - 1] == first + front;
    }
  }
}
