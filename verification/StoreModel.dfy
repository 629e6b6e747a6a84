/** The control plane's store as a value: enrollments, their issuers, tasks, revoked tokens, and all its operations. */
module StoreModel {
  import opened Wrappers

  /** Nanoseconds; 0 is the zero time, before every clock reading. */
  type Time = int
  type Id = nat
  type DeviceId = string

  const ZERO_TIME: Time := 0
  const SCOPE := "agent:enroll"
  const MAX_TTL: int := 900000000000

  /** Random values never repeat, and are numbered in the order they are drawn. */
  datatype Token = Random(nonce: nat) | Deployment(id: Id, nonce: nat) | Malformed(text: string)

  /** A token's digest: nothing but the token itself gives it. */
  datatype Digest = Digest(token: Token)

  datatype StoreError = NotFound | InvalidAuth | Forbidden | InvalidToken | InvalidRequest

  datatype Credential = Credential(
    id: Id, name: string, scope: string, createdBy: string, createdAt: Time,
    expiresAt: Option<Time>, revokedAt: Option<Time>, lastUsedAt: Option<Time>, hash: Digest)

  datatype Enrollment = Enrollment(device: DeviceId, expiresAt: Time, issuer: Option<Id>)

  datatype Status = Queued | Leased | Running | Success | Failure | Unknown | Expired

  datatype TaskDevice = TaskDevice(status: Status, result: string, updatedAt: Time)

  datatype Task = Task(kind: string, createdAt: Time, expiresAt: Time, devices: map<DeviceId, TaskDevice>)

  /** Who an audit event names: a text, or the number of a credential. */
  datatype Party = ByName(text: string) | ByNumber(id: Id)

  datatype AuditEvent = AuditEvent(actor: Party, action: string, target: Party, createdAt: Time)

  datatype Db = Db(
    credentials: map<Id, Credential>,
    enrollments: map<Digest, Enrollment>,
    agents: map<Digest, DeviceId>,
    tasks: map<Id, Task>,
    revoked: map<nat, Time>,
    audits: seq<AuditEvent>,
    drawn: nat)

  const EMPTY := Db(map[], map[], map[], map[], map[], [], 0)

  datatype Reply =
    | Failed(error: StoreError)
    | Created(credential: Credential, token: Token)
    | Revoked(credential: Credential)
    | Enrolled(token: Token, enrollment: Enrollment)
    | Admitted(token: Token, device: DeviceId)
    | Granted(id: Id, task: Task)
    | Answer(yes: bool)
    | Pending(ids: set<Id>)
    | Done

  // ---------------------------------------------------------------- text

  predicate IsSpace(c: char) {
    var n := c as int;
    9 <= n <= 13 || n in {0x20, 0x85, 0xA0, 0x1680, 0x2028, 0x2029, 0x202F, 0x205F, 0x3000} || 0x2000 <= n <= 0x200A
  }

  function TrimLeft(s: string): string {
    if s != [] && IsSpace(s[0]) then TrimLeft(s[1..]) else s
  }

  function Trim(s: string): string
  {
    TrimRight(TrimLeft(s))
  }

  function TrimRight(s: string): string {
    if s != [] && IsSpace(s[|s| - 1]) then TrimRight(s[..|s| - 1]) else s
  }

  /** The number of octets of a text in UTF-8. */
  function Octets(s: string): nat {
    if s == [] then 0
    else
      var n := s[0] as int;
      (if n < 0x80 then 1 else if n < 0x800 then 2 else if n < 0x10000 then 3 else 4) + Octets(s[1..])
  }

  predicate DeviceIdRefused(device: DeviceId) {
    Trim(device) == "" || Octets(device) > 128 || exists c :: c in device && c as int in {0, 10, 13}
  }

  // ---------------------------------------------------------------- deployment credentials and enrollments

  predicate Active(c: Credential, now: Time) {
    c.scope == SCOPE && c.revokedAt.None? && (c.expiresAt.None? || now < c.expiresAt.value)
  }

  function Audited(db: Db, actor: Party, action: string, target: Party, now: Time): Db {
    db.(audits := db.audits + [AuditEvent(actor, action, target, now)])
  }

  function CredentialRefused(name: string, ttl: int): bool {
    Trim(name) == "" || |Trim(name)| > 80 || ttl < 0
  }

  function CreateCredential(db: Db, name: string, actor: string, ttl: int, now: Time): (Db, Reply) {
    if CredentialRefused(name, ttl) then (db, Failed(InvalidRequest))
    else
      var id := db.drawn;
      var token := Deployment(id, db.drawn + 1);
      var c := Credential(id, Trim(name), SCOPE, actor, now, if ttl > 0 then Some(now + ttl) else None, None, None,
                          Digest(token));
      (Audited(db.(credentials := db.credentials[id := c], drawn := db.drawn + 2),
               ByName(actor), "deployment.credential.create", ByNumber(id), now), Created(c, token))
  }

  function RevokeCredential(db: Db, id: Id, actor: string, now: Time): (Db, Reply) {
    if id !in db.credentials then (db, Failed(NotFound))
    else if db.credentials[id].revokedAt.Some? then (db, Revoked(db.credentials[id]))
    else
      var c := db.credentials[id].(revokedAt := Some(now));
      (Audited(db.(credentials := db.credentials[id := c]),
               ByName(actor), "deployment.credential.revoke", ByNumber(id), now),
       Revoked(c))
  }

  function Earlier(a: Time, b: Option<Time>): Time {
    if b.Some? && b.value < a then b.value else a
  }

  function IssueEnrollment(db: Db, token: Token, device: DeviceId, ttl: int, now: Time): (Db, Reply) {
    if DeviceIdRefused(device) || ttl <= 0 || ttl > MAX_TTL then (db, Failed(InvalidRequest))
    else if !token.Deployment? then (db, Failed(InvalidAuth))
    else if token.id !in db.credentials || !Active(db.credentials[token.id], now)
            || db.credentials[token.id].hash != Digest(token) then (db, Failed(InvalidAuth))
    else
      var c := db.credentials[token.id];
      var e := Enrollment(device, Earlier(now + ttl, c.expiresAt), Some(c.id));
      var drawn := Random(db.drawn);
      (Audited(db.(enrollments := db.enrollments[Digest(drawn) := e],
                   credentials := db.credentials[c.id := c.(lastUsedAt := Some(now))], drawn := db.drawn + 1),
               ByNumber(c.id), "deployment.enrollment.create", ByName(device), now), Enrolled(drawn, e))
  }

  function CreateEnrollment(db: Db, device: DeviceId, ttl: int, now: Time): (Db, Reply) {
    var token, e := Random(db.drawn), Enrollment(device, now + ttl, None);
    (db.(enrollments := db.enrollments[Digest(token) := e], drawn := db.drawn + 1), Enrolled(token, e))
  }

  predicate IssuerAllows(db: Db, e: Enrollment, now: Time) {
    e.issuer.None? || (e.issuer.value in db.credentials && Active(db.credentials[e.issuer.value], now))
  }

  predicate CanExchange(db: Db, token: Token, device: DeviceId, now: Time) {
    Digest(token) in db.enrollments &&
    var e := db.enrollments[Digest(token)];
    now < e.expiresAt && (e.device == "" || e.device == device) && IssuerAllows(db, e, now)
  }

  function ExchangeEnrollment(db: Db, token: Token, device: DeviceId, now: Time): (Db, Reply) {
    if !CanExchange(db, token, device, now) then (db, Failed(InvalidToken))
    else
      var minted := Random(db.drawn);
      (db.(enrollments := db.enrollments - {Digest(token)}, agents := db.agents[Digest(minted) := device],
           drawn := db.drawn + 1), Admitted(minted, device))
  }

  predicate AgentValid(db: Db, token: Token, device: DeviceId) {
    Digest(token) in db.agents && db.agents[Digest(token)] == device
  }

  // ---------------------------------------------------------------- revoked user tokens

  predicate TokenRevoked(db: Db, digest: nat, now: Time) {
    digest in db.revoked && now < db.revoked[digest]
  }

  // ---------------------------------------------------------------- tasks

  function CreateTask(db: Db, task: Task, now: Time): (Db, Reply) {
    if task.kind == "" || task.devices == map[] then (db, Failed(NotFound))
    else
      var at := if task.createdAt == ZERO_TIME then now else task.createdAt;
      var t := task.(createdAt := at,
                     devices := map d | d in task.devices :: task.devices[d].(status := Queued, updatedAt := at));
      (db.(tasks := db.tasks[db.drawn := t], drawn := db.drawn + 1), Granted(db.drawn, t))
  }

  predicate PastExpiry(t: Task, now: Time) {
    t.expiresAt != ZERO_TIME && now > t.expiresAt
  }

  predicate QueuedFor(t: Task, device: DeviceId) {
    device in t.devices && t.devices[device].status == Queued
  }

  function PendingTasks(db: Db, device: DeviceId, now: Time): set<Id> {
    set id | id in db.tasks && !(now > db.tasks[id].expiresAt) && QueuedFor(db.tasks[id], device)
  }

  function WithStatus(t: Task, device: DeviceId, status: Status, result: string, now: Time): Task {
    t.(devices := t.devices[device := TaskDevice(status, result, now)])
  }

  function ClaimTask(db: Db, id: Id, device: DeviceId, now: Time): (Db, Reply) {
    if id !in db.tasks then (db, Failed(NotFound))
    else if PastExpiry(db.tasks[id], now) then (db, Failed(InvalidToken))
    else if !QueuedFor(db.tasks[id], device) then (db, Failed(Forbidden))
    else
      var t := WithStatus(db.tasks[id], device, Leased, db.tasks[id].devices[device].result, now);
      (db.(tasks := db.tasks[id := t]), Granted(id, t))
  }

  function SetTaskStatus(db: Db, id: Id, device: DeviceId, status: Status, result: string, now: Time): (Db, Reply) {
    if id !in db.tasks || device !in db.tasks[id].devices then (db, Failed(NotFound))
    else
      var t := WithStatus(db.tasks[id], device, status, result, now);
      (db.(tasks := db.tasks[id := t]), Granted(id, t))
  }

  predicate UnderWay(t: Task, device: DeviceId) {
    device in t.devices && (t.devices[device].status == Leased || t.devices[device].status == Running)
  }

  function Abandoned(t: Task, device: DeviceId, now: Time): Task {
    if UnderWay(t, device) then WithStatus(t, device, Unknown, "agent disconnected after claim", now) else t
  }

  function MarkLeasedUnknown(db: Db, device: DeviceId, now: Time): Db {
    db.(tasks := map id | id in db.tasks :: Abandoned(db.tasks[id], device, now))
  }

  // ---------------------------------------------------------------- cleaning

  function ExpireDevice(d: TaskDevice, now: Time): TaskDevice {
    if d.status == Queued then d.(status := Expired, updatedAt := now) else d
  }

  function ExpireTask(t: Task, now: Time): Task {
    if PastExpiry(t, now) then t.(devices := map d | d in t.devices :: ExpireDevice(t.devices[d], now)) else t
  }

  function Recent(audits: seq<AuditEvent>, before: Time): seq<AuditEvent> {
    if audits == [] then []
    else
      Recent(audits[..|audits| - 1], before)
      + (if audits[|audits| - 1].createdAt > before then [audits[|audits| - 1]] else [])
  }

  function Clean(db: Db, before: Time, now: Time): Db {
    db.(revoked := map t | t in db.revoked && now < db.revoked[t] :: db.revoked[t],
        enrollments := map t | t in db.enrollments && now < db.enrollments[t].expiresAt :: db.enrollments[t],
        tasks := map id | id in db.tasks :: ExpireTask(db.tasks[id], now),
        audits := Recent(db.audits, before))
  }

  // ---------------------------------------------------------------- runs

  datatype Op =
    | DoCreateCredential(name: string, actor: string, ttl: int)
    | DoRevokeCredential(id: Id, actor: string)
    | DoIssueEnrollment(token: Token, device: DeviceId, ttl: int)
    | DoCreateEnrollment(device: DeviceId, ttl: int)
    | DoExchange(token: Token, device: DeviceId)
    | DoValidateAgent(token: Token, device: DeviceId)
    | DoRevokeUserToken(digest: nat, expires: Time)
    | DoUserTokenRevoked(digest: nat)
    | DoCreateTask(task: Task)
    | DoPendingTasks(device: DeviceId)
    | DoClaim(id: Id, device: DeviceId)
    | DoSetStatus(id: Id, device: DeviceId, status: Status, result: string)
    | DoMarkLeasedUnknown(device: DeviceId)
    | DoAudit(who: Party, action: string, target: Party)
    | DoClean(before: Time)
    | DoSkip(drawn: nat)

  /** No call of anyone: random values that an earlier process has drawn are not drawn again. */
  function Skip(db: Db, drawn: nat): Db {
    if db.drawn < drawn then db.(drawn := drawn) else db
  }

  datatype Call = Call(op: Op, now: Time)

  function Apply(db: Db, c: Call): (Db, Reply) {
    match c.op
    case DoCreateCredential(name, actor, ttl) => CreateCredential(db, name, actor, ttl, c.now)
    case DoRevokeCredential(id, actor) => RevokeCredential(db, id, actor, c.now)
    case DoIssueEnrollment(token, device, ttl) => IssueEnrollment(db, token, device, ttl, c.now)
    case DoCreateEnrollment(device, ttl) => CreateEnrollment(db, device, ttl, c.now)
    case DoExchange(token, device) => ExchangeEnrollment(db, token, device, c.now)
    case DoValidateAgent(token, device) => (db, Answer(AgentValid(db, token, device)))
    case DoRevokeUserToken(digest, expires) => (db.(revoked := db.revoked[digest := expires]), Done)
    case DoUserTokenRevoked(digest) => (db, Answer(TokenRevoked(db, digest, c.now)))
    case DoCreateTask(task) => CreateTask(db, task, c.now)
    case DoPendingTasks(device) => (db, Pending(PendingTasks(db, device, c.now)))
    case DoClaim(id, device) => ClaimTask(db, id, device, c.now)
    case DoSetStatus(id, device, status, result) => SetTaskStatus(db, id, device, status, result, c.now)
    case DoMarkLeasedUnknown(device) => (MarkLeasedUnknown(db, device, c.now), Done)
    case DoAudit(actor, action, target) => (Audited(db, actor, action, target, c.now), Done)
    case DoClean(before) => (Clean(db, before, c.now), Done)
    case DoSkip(drawn) => (Skip(db, drawn), Done)
  }

  /** The store after the first calls of a run. */
  function After(calls: seq<Call>): Db {
    if calls == [] then EMPTY else Apply(After(calls[..|calls| - 1]), calls[|calls| - 1]).0
  }

  /** The reply to one call of a run. */
  function ReplyTo(calls: seq<Call>, i: nat): Reply
    requires i < |calls|
  {
    Apply(After(calls[..i]), calls[i]).1
  }

  /** The clock is past the zero time and never goes back. */
  predicate Monotone(calls: seq<Call>) {
    (forall i | 0 <= i < |calls| :: calls[i].now > ZERO_TIME)
    && (forall i, j | 0 <= i < j < |calls| :: calls[i].now <= calls[j].now)
  }

  lemma AfterNext(calls: seq<Call>, i: nat)
    requires i < |calls|
    ensures After(calls[..i + 1]) == Apply(After(calls[..i]), calls[i]).0
  {
    hide Apply;
    assert calls[..i + 1][..i] == calls[..i];
  }
}
