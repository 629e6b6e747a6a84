/** Which tokens and credentials are good for what, told from the calls made so far and their replies. */
module EnrollmentHistory {
  import opened Wrappers
  import opened StoreModel
  import S = EnrollmentSafety

  // ---------------------------------------------------------------- fresh secrets

  /** A reply hands out a secret. */
  predicate Hands(r: Reply, token: Token) {
    (r.Created? || r.Enrolled? || r.Admitted?) && r.token == token
  }

  lemma MakingDraws(db: Db, name: string, actor: string, ttl: int, now: Time)
    ensures
      var (r, reply) := CreateCredential(db, name, actor, ttl, now);
      && (reply.Created? ==> reply.token == Deployment(db.drawn, db.drawn + 1) && r.drawn == db.drawn + 2)
      && (reply.Created? || reply.Failed?)
  {
    hide CredentialRefused, Trim;
  }

  lemma HandingDraws(db: Db, c: Call, token: Token)
    requires Hands(Apply(db, c).1, token)
    ensures !token.Malformed? && db.drawn <= token.nonce < Apply(db, c).0.drawn
  {
    hide CreateCredential, CanExchange, PastExpiry, QueuedFor, WithStatus, DeviceIdRefused, Active, Earlier;
    match c.op
    case DoCreateCredential(name, actor, ttl) => MakingDraws(db, name, actor, ttl, c.now);
    case _ =>
  }

  lemma {:induction false} DrawnRises(calls: seq<Call>, i: nat, j: nat)
    requires i <= j <= |calls|
    ensures After(calls[..i]).drawn <= After(calls[..j]).drawn
    decreases j
  {
    hide Apply, S.Numbered;
    if i < j {
      DrawnRises(calls, i, j - 1);
      AfterNext(calls, j - 1);
      S.AfterNumbered(calls[..j - 1]);
      S.ApplyNumbered(After(calls[..j - 1]), calls[j - 1]);
    }
  }

  /** No secret is handed out twice: not the token of a deployment credential, an enrollment or an agent. */
  lemma SecretsAreFresh(calls: seq<Call>, i: nat, j: nat, token: Token)
    requires i < |calls| && Hands(ReplyTo(calls, i), token)
    requires j < |calls| && Hands(ReplyTo(calls, j), token)
    ensures i == j
  {
    hide Apply, Hands;
    HandingDraws(After(calls[..i]), calls[i], token);
    HandingDraws(After(calls[..j]), calls[j], token);
    AfterNext(calls, i);
    AfterNext(calls, j);
    if i < j { DrawnRises(calls, i + 1, j); }
    if j < i { DrawnRises(calls, j + 1, i); }
  }

  // ---------------------------------------------------------------- deployment credentials

  /** A call that made a deployment credential and handed out its token. */
  predicate Makes(calls: seq<Call>, i: nat, token: Token) {
    i < |calls| && calls[i].op.DoCreateCredential? && ReplyTo(calls, i).Created? && ReplyTo(calls, i).token == token
  }

  /** A deployment credential is revoked between two calls. */
  predicate RevokedSince(calls: seq<Call>, i: nat, j: nat, id: Id) {
    exists r: nat :: i < r < j <= |calls| && calls[r].op.DoRevokeCredential? && calls[r].op.id == id
  }

  /** One call handed out the deployment token, for longer than until now or for good, and it was not revoked since. */
  predicate StandsBy(calls: seq<Call>, i: nat, j: nat, token: Token, now: Time) {
    && i < j && Makes(calls, i, token) && (calls[i].op.ttl > 0 ==> now < calls[i].now + calls[i].op.ttl)
    && !RevokedSince(calls, i, j, ReplyTo(calls, i).credential.id)
  }

  predicate Stands(calls: seq<Call>, j: nat, token: Token, now: Time) {
    exists i: nat :: i < j && StandsBy(calls, i, j, token, now)
  }

  /** What the store keeps of a credential that one call made, some calls later. */
  predicate KeptAs(calls: seq<Call>, i: nat, j: nat, c: Credential)
    requires i < j <= |calls| && calls[i].op.DoCreateCredential? && ReplyTo(calls, i).Created?
  {
    && c.id == ReplyTo(calls, i).credential.id && c.hash == Digest(ReplyTo(calls, i).token) && c.scope == SCOPE
    && c.expiresAt == (if calls[i].op.ttl > 0 then Some(calls[i].now + calls[i].op.ttl) else None)
    && (c.revokedAt.Some? <==> RevokedSince(calls, i, j, c.id))
  }

  lemma NewCredential(db: Db, c: Call, id: Id)
    requires S.Numbered(db) && id !in db.credentials && id in Apply(db, c).0.credentials
    ensures c.op.DoCreateCredential? && Apply(db, c).1.Created?
    ensures
      var kept, r := Apply(db, c).0.credentials[id], Apply(db, c).1;
      && id == kept.id == r.credential.id && kept.hash == Digest(r.token) && kept.scope == SCOPE && kept.revokedAt.None?
      && kept.expiresAt == if c.op.ttl > 0 then Some(c.now + c.op.ttl) else None
  {
    hide CredentialRefused, Trim, DeviceIdRefused, Active, Earlier;
    if !c.op.DoCreateCredential? && !c.op.DoRevokeCredential? && !c.op.DoIssueEnrollment? {
      hide Apply;
      S.OthersKeepCredentials(db, c);
    }
  }

  lemma MakingKeeps(db: Db, c: Call)
    requires Apply(db, c).1.Created?
    ensures c.op.DoCreateCredential? && Apply(db, c).1.credential.id in Apply(db, c).0.credentials
    ensures S.Numbered(db) ==> Apply(db, c).1.credential.id !in db.credentials
    ensures Apply(db, c).1.token == Deployment(Apply(db, c).1.credential.id, db.drawn + 1)
  {
    hide CredentialRefused, Trim, DeviceIdRefused, Active, Earlier, CanExchange, PastExpiry, QueuedFor;
  }

  lemma OldCredential(db: Db, c: Call, id: Id)
    requires S.Numbered(db) && id in db.credentials
    ensures id in Apply(db, c).0.credentials && S.SameCredential(db.credentials[id], Apply(db, c).0.credentials[id])
    ensures Apply(db, c).0.credentials[id].revokedAt.Some? <==>
      db.credentials[id].revokedAt.Some? || (c.op.DoRevokeCredential? && c.op.id == id)
  {
    S.CredentialStays(db, c, id);
    if c.op.DoCreateCredential? || c.op.DoRevokeCredential? || c.op.DoIssueEnrollment? {
      hide CredentialRefused, Trim, DeviceIdRefused, Active, Earlier;
    } else {
      hide Apply;
      S.OthersKeepCredentials(db, c);
    }
  }

  /** Every credential in the store was made by an earlier call, and is kept as that call and the revocations say. */
  lemma {:induction false} CredentialsExactly(calls: seq<Call>, j: nat, id: Id) returns (i: nat)
    requires j <= |calls| && id in After(calls[..j]).credentials
    ensures i < j && calls[i].op.DoCreateCredential? && ReplyTo(calls, i).Created?
    ensures KeptAs(calls, i, j, After(calls[..j]).credentials[id]) && ReplyTo(calls, i).credential.id == id
    decreases j
  {
    hide Apply, S.Numbered;
    var db := After(calls[..j - 1]);
    AfterNext(calls, j - 1);
    S.AfterNumbered(calls[..j - 1]);
    if id in db.credentials {
      i := CredentialsExactly(calls, j - 1, id);
      OldCredential(db, calls[j - 1], id);
      RevokedNext(calls, i, j, id);
    } else {
      i := j - 1;
      NewCredential(db, calls[j - 1], id);
    }
  }

  lemma RevokedNext(calls: seq<Call>, i: nat, j: nat, id: Id)
    requires i < j - 1 < |calls|
    ensures RevokedSince(calls, i, j, id) <==>
      RevokedSince(calls, i, j - 1, id) || (calls[j - 1].op.DoRevokeCredential? && calls[j - 1].op.id == id)
  {
  }

  lemma {:induction false} MadeStays(calls: seq<Call>, i: nat, j: nat, id: Id)
    requires i < j <= |calls| && ReplyTo(calls, i).Created? && ReplyTo(calls, i).credential.id == id
    ensures id in After(calls[..j]).credentials
    decreases j
  {
    hide Apply, S.Numbered;
    AfterNext(calls, j - 1);
    S.AfterNumbered(calls[..j - 1]);
    if i < j - 1 {
      MadeStays(calls, i, j - 1, id);
      OldCredential(After(calls[..j - 1]), calls[j - 1], id);
    } else {
      MakingKeeps(After(calls[..i]), calls[i]);
    }
  }

  /** Trimming takes the spaces off both ends, and nothing more. */
  lemma TrimTells(s: string) returns (a: nat, b: nat)
    ensures a <= b <= |s| && Trim(s) == s[a..b]
    ensures forall i | 0 <= i < |s| && !(a <= i < b) :: IsSpace(s[i])
    ensures a < b ==> !IsSpace(s[a]) && !IsSpace(s[b - 1])
  {
    a := LeftTells(s);
    var n := RightTells(s[a..]);
    b := a + n;
    assert s[a..][..n] == s[a..b];
    forall i | 0 <= i < |s| && !(a <= i < b) ensures IsSpace(s[i]) {
      if i >= b { assert s[a..][i - a] == s[i]; }
    }
    if a < b { assert s[a..][n - 1] == s[b - 1]; }
  }

  lemma {:induction false} LeftTells(s: string) returns (a: nat)
    ensures a <= |s| && TrimLeft(s) == s[a..] && (forall i | 0 <= i < a :: IsSpace(s[i]))
    ensures a < |s| ==> !IsSpace(s[a])
  {
    if s != [] && IsSpace(s[0]) {
      var n := LeftTells(s[1..]);
      a := n + 1;
      forall i | 0 <= i < a ensures IsSpace(s[i]) {
        if i > 0 { assert s[1..][i - 1] == s[i]; }
      }
      assert s[1..][n..] == s[a..];
      if a < |s| { assert s[1..][n] == s[a]; }
    } else {
      a := 0;
    }
  }

  lemma {:induction false} RightTells(s: string) returns (b: nat)
    ensures b <= |s| && TrimRight(s) == s[..b] && (forall i | b <= i < |s| :: IsSpace(s[i]))
    ensures 0 < b ==> !IsSpace(s[b - 1])
  {
    if s != [] && IsSpace(s[|s| - 1]) {
      b := RightTells(s[..|s| - 1]);
      assert s[..|s| - 1][..b] == s[..b];
    } else {
      b := |s|;
    }
  }

  /** A deployment credential is made exactly for a name of one to eighty characters, and one that outlives no past. */
  lemma MadeExactly(calls: seq<Call>, j: nat)
    requires j < |calls| && calls[j].op.DoCreateCredential?
    ensures
      ReplyTo(calls, j).Created? <==> 1 <= |Trim(calls[j].op.name)| <= 80 && 0 <= calls[j].op.ttl
    ensures ReplyTo(calls, j).Created? ==>
      var c := ReplyTo(calls, j).credential;
      c.name == Trim(calls[j].op.name) && c.createdBy == calls[j].op.actor && c.createdAt == calls[j].now
  {
    hide Trim, After;
  }

  /** A revocation succeeds exactly if the credential was made, and whoever revokes learns that it is revoked. */
  lemma RevokesExactly(calls: seq<Call>, j: nat)
    requires j < |calls| && calls[j].op.DoRevokeCredential?
    ensures
      var id := calls[j].op.id;
      ReplyTo(calls, j).Revoked? <==>
        exists i: nat :: i < j && ReplyTo(calls, i).Created? && ReplyTo(calls, i).credential.id == id
    ensures ReplyTo(calls, j).Revoked? ==>
      ReplyTo(calls, j).credential.id == calls[j].op.id && ReplyTo(calls, j).credential.revokedAt.Some?
  {
    hide After;
    var id := calls[j].op.id;
    if id in After(calls[..j]).credentials {
      var i := CredentialsExactly(calls, j, id);
    }
    if i: nat :| i < j && ReplyTo(calls, i).Created? && ReplyTo(calls, i).credential.id == id {
      MadeStays(calls, i, j, id);
    }
  }

  lemma MadeOnce(calls: seq<Call>, i: nat, j: nat, id: Id)
    requires i < |calls| && ReplyTo(calls, i).Created? && ReplyTo(calls, i).credential.id == id
    requires j < |calls| && ReplyTo(calls, j).Created? && ReplyTo(calls, j).credential.id == id
    ensures i == j
  {
    hide Apply, S.Numbered;
    if i < j {
      MadeStays(calls, i, j, id);
      S.AfterNumbered(calls[..j]);
      MakingKeeps(After(calls[..j]), calls[j]);
    }
    if j < i {
      MadeStays(calls, j, i, id);
      S.AfterNumbered(calls[..i]);
      MakingKeeps(After(calls[..i]), calls[i]);
    }
  }

  /** A deployment token stands exactly if the store's credential of its number has its hash and is active. */
  lemma StandsExactly(calls: seq<Call>, j: nat, token: Token, now: Time)
    requires j <= |calls|
    ensures
      var credentials := After(calls[..j]).credentials;
      Stands(calls, j, token, now) <==>
        token.Deployment? && token.id in credentials && credentials[token.id].hash == Digest(token)
        && Active(credentials[token.id], now)
  {
    hide Apply, S.Numbered, RevokedSince;
    var credentials := After(calls[..j]).credentials;
    if i: nat :| i < j && StandsBy(calls, i, j, token, now) {
      var id := ReplyTo(calls, i).credential.id;
      MakingKeeps(After(calls[..i]), calls[i]);
      MadeStays(calls, i, j, id);
      var l := CredentialsExactly(calls, j, id);
      MadeOnce(calls, i, l, id);
    }
    if token.Deployment? && token.id in credentials && credentials[token.id].hash == Digest(token)
      && Active(credentials[token.id], now)
    {
      var l := CredentialsExactly(calls, j, token.id);
      assert StandsBy(calls, l, j, token, now);
    }
  }

  /**
   * An enrollment is issued exactly for a device with a fitting name, for at most fifteen minutes, on a deployment
   * token that stands.
   */
  lemma IssuedExactly(calls: seq<Call>, j: nat)
    requires j < |calls| && calls[j].op.DoIssueEnrollment?
    ensures
      var op := calls[j].op;
      ReplyTo(calls, j).Enrolled? <==>
        && Trim(op.device) != "" && Octets(op.device) <= 128 && (forall c | c in op.device :: c as int !in {0, 10, 13})
        && 0 < op.ttl <= 15 * 60 * 1000000000
        && Stands(calls, j, op.token, calls[j].now)
  {
    hide After, Stands, Active, Trim, Octets, Earlier;
    StandsExactly(calls, j, calls[j].op.token, calls[j].now);
  }

  // ---------------------------------------------------------------- enrollments

  /** A call handed out an enrollment token that lets a device in at an instant, some calls later. */
  predicate LetsIn(calls: seq<Call>, k: nat, j: nat, token: Token, device: DeviceId, now: Time) {
    k < j <= |calls| && ReplyTo(calls, k).Enrolled? && ReplyTo(calls, k).token == token
    && match calls[k].op
       case DoCreateEnrollment(asked, ttl) => (asked == "" || asked == device) && now < calls[k].now + ttl
       case DoIssueEnrollment(issuer, asked, ttl) =>
         asked == device && now < calls[k].now + ttl && Stands(calls, j, issuer, now)
       case _ => false
  }

  lemma CreatingTells(db: Db, c: Call)
    requires c.op.DoCreateEnrollment?
    ensures Apply(db, c).1.Enrolled? && Apply(db, c).1.enrollment == Enrollment(c.op.device, c.now + c.op.ttl, None)
  {
  }

  lemma IssuingTells(db: Db, c: Call)
    requires c.op.DoIssueEnrollment? && Apply(db, c).1.Enrolled? && S.Numbered(db)
    ensures
      var token, e := c.op.token, Apply(db, c).1.enrollment;
      && c.op.device != "" && token.Deployment? && token.id in db.credentials
      && db.credentials[token.id].hash == Digest(token)
      && e == Enrollment(c.op.device, Earlier(c.now + c.op.ttl, db.credentials[token.id].expiresAt), Some(token.id))
  {
    hide Earlier, Active, Octets;
  }

  lemma OnlyTheseOpen(db: Db, c: Call)
    ensures Apply(db, c).1.Enrolled? ==> c.op.DoIssueEnrollment? || c.op.DoCreateEnrollment?
  {
    hide IssueEnrollment, CreateEnrollment, Clean, CanExchange;
    if !S.TouchesEnrollments(c.op) {
      hide Apply;
      S.OthersKeepEnrollments(db, c);
    }
  }

  /** The enrollment that a call opened admits a device later on exactly if the call's own arguments say so. */
  lemma AdmitsExactly(calls: seq<Call>, k: nat, j: nat, token: Token, e: Enrollment, device: DeviceId, now: Time)
    requires k < j <= |calls| && S.OpensAt(calls, k, token, e)
    ensures S.Admits(After(calls[..j]), e, device, now) <==> LetsIn(calls, k, j, token, device, now)
  {
    hide Apply, After, S.Numbered, Stands, Active;
    var before := After(calls[..k]);
    OnlyTheseOpen(before, calls[k]);
    if calls[k].op.DoCreateEnrollment? {
      CreatingTells(before, calls[k]);
    } else {
      S.AfterNumbered(calls[..k]);
      IssuingTells(before, calls[k]);
      var id := calls[k].op.token.id;
      StandsExactly(calls, j, calls[k].op.token, now);
      S.CredentialsStay(calls, k, j, id);
      ActiveBeforeDeadline(After(calls[..j]).credentials[id], now);
    }
  }

  lemma ActiveBeforeDeadline(c: Credential, now: Time)
    ensures Active(c, now) && c.expiresAt.Some? ==> now < c.expiresAt.value
  {
  }

  /** A call exchanged a token for an agent credential. */
  predicate Exchanges(calls: seq<Call>, i: nat, token: Token) {
    i < |calls| && calls[i].op.DoExchange? && calls[i].op.token == token && ReplyTo(calls, i).Admitted?
  }

  /**
   * An exchange succeeds exactly when its token was handed out by an earlier call that asked for this device, or for
   * any, with a lifetime that is not over, the token was never exchanged, and the deployment token it was issued on,
   * if there is one, still stands.
   */
  lemma ExchangeExactly(calls: seq<Call>, j: nat)
    requires Monotone(calls) && j < |calls| && calls[j].op.DoExchange?
    ensures
      var op := calls[j].op;
      ReplyTo(calls, j).Admitted? <==>
        && (exists k: nat :: k < j && LetsIn(calls, k, j, op.token, op.device, calls[j].now))
        && (forall i: nat :: i < j ==> !Exchanges(calls, i, op.token))
    ensures ReplyTo(calls, j).Admitted? ==> ReplyTo(calls, j).device == calls[j].op.device
  {
    hide Apply, After, S.Admits, LetsIn, Monotone;
    var token, device, now := calls[j].op.token, calls[j].op.device, calls[j].now;
    S.ExchangeByStore(calls, j);
    forall i: nat | i < j ensures S.SpendsAt(calls, i, token) <==> Exchanges(calls, i, token) {}
    if k: nat, e :| k < j && S.OpensAt(calls, k, token, e) && S.Admits(After(calls[..j]), e, device, now) {
      AdmitsExactly(calls, k, j, token, e, device, now);
    }
    if k: nat :| k < j && LetsIn(calls, k, j, token, device, now) {
      LettingInOpens(calls, k, j, token, device, now);
      AdmitsExactly(calls, k, j, token, ReplyTo(calls, k).enrollment, device, now);
    }
  }

  lemma LettingInOpens(calls: seq<Call>, k: nat, j: nat, token: Token, device: DeviceId, now: Time)
    requires LetsIn(calls, k, j, token, device, now)
    ensures S.OpensAt(calls, k, token, ReplyTo(calls, k).enrollment)
  {
    hide Apply, After, Stands;
  }

  // ---------------------------------------------------------------- agent credentials and revoked user tokens

  /** A token is an agent's exactly if an earlier exchange minted it for that device. */
  lemma ValidExactly(calls: seq<Call>, j: nat)
    requires j < |calls| && calls[j].op.DoValidateAgent?
    ensures ReplyTo(calls, j) ==
      Answer(exists i: nat :: i < j && ReplyTo(calls, i) == Admitted(calls[j].op.token, calls[j].op.device))
  {
    hide After;
    var token, device := calls[j].op.token, calls[j].op.device;
    if AgentValid(After(calls[..j]), token, device) {
      S.AgentsWereAdmitted(calls, j, token, device);
    }
    if i: nat :| i < j && ReplyTo(calls, i) == Admitted(token, device) {
      S.MintedStaysValid(calls, i, j);
    }
  }

  /** The last of the first n calls that revoke a user's token. */
  predicate LastRevocation(calls: seq<Call>, i: nat, n: nat, digest: nat) {
    && i < n <= |calls| && calls[i].op.DoRevokeUserToken? && calls[i].op.digest == digest
    && forall l: nat :: i < l < n && calls[l].op.DoRevokeUserToken? ==> calls[l].op.digest != digest
  }

  lemma IssuingLeavesRevoked(db: Db, token: Token, device: DeviceId, ttl: int, now: Time)
    ensures IssueEnrollment(db, token, device, ttl, now).0.revoked == db.revoked
  {
    hide Active, Earlier, DeviceIdRefused;
  }

  lemma TasksLeaveRevoked(db: Db, task: Task, id: Id, device: DeviceId, status: Status, result: string, now: Time)
    ensures CreateTask(db, task, now).0.revoked == db.revoked && ClaimTask(db, id, device, now).0.revoked == db.revoked
    ensures SetTaskStatus(db, id, device, status, result, now).0.revoked == db.revoked
  {
    hide WithStatus, PastExpiry, QueuedFor;
  }

  lemma OthersLeaveRevoked(db: Db, c: Call)
    requires !c.op.DoRevokeUserToken? && !c.op.DoClean?
    ensures Apply(db, c).0.revoked == db.revoked
  {
    hide IssueEnrollment, CreateTask, ClaimTask, SetTaskStatus, Abandoned, CanExchange, CredentialRefused, Trim;
    match c.op
    case DoIssueEnrollment(token, device, ttl) => IssuingLeavesRevoked(db, token, device, ttl, c.now);
    case DoCreateTask(task) => TasksLeaveRevoked(db, task, 0, "", Queued, "", c.now);
    case DoClaim(id, device) => TasksLeaveRevoked(db, Task("", 0, 0, map[]), id, device, Queued, "", c.now);
    case DoSetStatus(id, device, status, result) =>
      TasksLeaveRevoked(db, Task("", 0, 0, map[]), id, device, status, result, c.now);
    case _ =>
  }

  lemma RevocationStep(db: Db, c: Call, digest: nat)
    ensures
      var r := Apply(db, c).0;
      if c.op.DoRevokeUserToken? && c.op.digest == digest then
        digest in r.revoked && r.revoked[digest] == c.op.expires
      else
        && (digest in r.revoked ==> digest in db.revoked && r.revoked[digest] == db.revoked[digest])
        && (digest in db.revoked && c.now < db.revoked[digest] ==> digest in r.revoked)
  {
    if c.op.DoRevokeUserToken? || c.op.DoClean? {
      hide Recent, ExpireTask;
    } else {
      hide Apply;
      OthersLeaveRevoked(db, c);
    }
  }

  /** A user's token is revoked until an instant exactly if its last revocation says so. */
  lemma {:induction false} RevocationsExactly(calls: seq<Call>, n: nat, j: nat, digest: nat)
    requires Monotone(calls) && n <= j < |calls|
    ensures TokenRevoked(After(calls[..n]), digest, calls[j].now) <==>
      exists i: nat :: i < n && LastRevocation(calls, i, n, digest) && calls[j].now < calls[i].op.expires
    decreases n
  {
    hide Apply, Monotone;
    if n > 0 {
      RevocationsExactly(calls, n - 1, j, digest);
      AfterNext(calls, n - 1);
      RevocationStep(After(calls[..n - 1]), calls[n - 1], digest);
      LastNext(calls, n, digest);
      ClockRises(calls, n - 1, j);
    }
  }

  lemma ClockRises(calls: seq<Call>, i: nat, j: nat)
    requires Monotone(calls) && i <= j < |calls|
    ensures calls[i].now <= calls[j].now
  {
  }

  lemma LastNext(calls: seq<Call>, n: nat, digest: nat)
    requires 0 < n <= |calls|
    ensures
      var c := calls[n - 1];
      if c.op.DoRevokeUserToken? && c.op.digest == digest then
        forall i: nat :: LastRevocation(calls, i, n, digest) <==> i == n - 1
      else
        var before := n - 1;
        forall i: nat :: LastRevocation(calls, i, n, digest) <==> LastRevocation(calls, i, before, digest)
  {
  }

  /** A user's token is told to be revoked exactly while the last revocation of it runs. */
  lemma RevokedExactly(calls: seq<Call>, j: nat)
    requires Monotone(calls) && j < |calls| && calls[j].op.DoUserTokenRevoked?
    ensures ReplyTo(calls, j) ==
      Answer(exists i: nat :: i < j && LastRevocation(calls, i, j, calls[j].op.digest)
                              && calls[j].now < calls[i].op.expires)
  {
    hide After, LastRevocation, Monotone;
    RevocationsExactly(calls, j, j, calls[j].op.digest);
  }

  // ---------------------------------------------------------------- the audit trail

  /** What a call leaves in the audit trail, by its arguments and its reply. */
  function Trail(db: Db, c: Call, reply: Reply): seq<AuditEvent> {
    match c.op
    case DoCreateCredential(_, actor, _) =>
      if !reply.Created? then []
      else [AuditEvent(ByName(actor), "deployment.credential.create", ByNumber(reply.credential.id), c.now)]
    case DoRevokeCredential(id, actor) =>
      if !reply.Revoked? || id !in db.credentials || db.credentials[id].revokedAt.Some? then []
      else [AuditEvent(ByName(actor), "deployment.credential.revoke", ByNumber(id), c.now)]
    case DoIssueEnrollment(token, device, _) =>
      if !reply.Enrolled? || !token.Deployment? then []
      else [AuditEvent(ByNumber(token.id), "deployment.enrollment.create", ByName(device), c.now)]
    case DoAudit(actor, action, target) => [AuditEvent(actor, action, target, c.now)]
    case _ => []
  }

  lemma CredentialTrail(db: Db, c: Call)
    requires c.op.DoCreateCredential? || c.op.DoRevokeCredential? || c.op.DoIssueEnrollment?
    requires S.Numbered(db)
    ensures Apply(db, c).0.audits == db.audits + Trail(db, c, Apply(db, c).1)
  {
    hide CredentialRefused, Trim, DeviceIdRefused, Active, Earlier;
  }

  lemma OtherTrail(db: Db, c: Call)
    requires !c.op.DoCreateCredential? && !c.op.DoRevokeCredential? && !c.op.DoIssueEnrollment? && !c.op.DoClean?
    ensures Apply(db, c).0.audits == db.audits + Trail(db, c, Apply(db, c).1)
  {
    hide WithStatus, PastExpiry, QueuedFor, Abandoned, CanExchange, PendingTasks;
  }

  /** Every credential made, revoked for the first time or used to issue leaves one event, and other changes none. */
  lemma AuditedExactly(calls: seq<Call>, j: nat)
    requires j < |calls| && !calls[j].op.DoClean?
    ensures
      var db := After(calls[..j]);
      After(calls[..j + 1]).audits == db.audits + Trail(db, calls[j], ReplyTo(calls, j))
  {
    hide Apply, Trail, S.Numbered;
    AfterNext(calls, j);
    S.AfterNumbered(calls[..j]);
    var c := calls[j];
    if c.op.DoCreateCredential? || c.op.DoRevokeCredential? || c.op.DoIssueEnrollment? {
      CredentialTrail(After(calls[..j]), c);
    } else {
      OtherTrail(After(calls[..j]), c);
    }
  }
}
