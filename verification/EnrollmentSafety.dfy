/** What becomes of an enrollment token, and of the agent credential it yields, over every run of the store. */
module EnrollmentSafety {
  import opened Wrappers
  import opened StoreModel

  /** Tokens were drawn before. */
  ghost predicate TokensFit(db: Db) {
    && (forall g | g in db.enrollments :: g.token.Random? && g.token.nonce < db.drawn)
    && (forall g | g in db.agents :: g.token.Random? && g.token.nonce < db.drawn)
  }

  /** Credentials and tasks were drawn before. */
  ghost predicate NumbersFit(db: Db) {
    && (forall id | id in db.credentials :: id < db.drawn && db.credentials[id].id == id)
    && (forall id | id in db.tasks :: id < db.drawn)
  }

  /** Everything in the store was drawn before. */
  ghost predicate Numbered(db: Db) {
    TokensFit(db) && NumbersFit(db)
  }

  /** The calls that can change enrollments or agent credentials. */
  predicate TouchesEnrollments(op: Op) {
    op.DoIssueEnrollment? || op.DoCreateEnrollment? || op.DoExchange? || op.DoClean?
  }

  /** What calls on other things leave alone. */
  ghost predicate LeavesTokens(db: Db, r: (Db, Reply)) {
    && r.0.enrollments == db.enrollments && r.0.agents == db.agents && db.drawn <= r.0.drawn
    && !r.1.Enrolled? && !r.1.Admitted?
  }

  lemma CreateCredentialNumbers(db: Db, name: string, actor: string, ttl: int, now: Time)
    ensures LeavesTokens(db, CreateCredential(db, name, actor, ttl, now))
    ensures NumbersFit(db) ==> NumbersFit(CreateCredential(db, name, actor, ttl, now).0)
  {
    hide CredentialRefused, Trim;
  }

  lemma RevokeCredentialNumbers(db: Db, id: Id, actor: string, now: Time)
    ensures LeavesTokens(db, RevokeCredential(db, id, actor, now))
    ensures NumbersFit(db) ==> NumbersFit(RevokeCredential(db, id, actor, now).0)
  {
  }

  lemma CreateTaskNumbers(db: Db, task: Task, now: Time)
    ensures LeavesTokens(db, CreateTask(db, task, now))
    ensures NumbersFit(db) ==> NumbersFit(CreateTask(db, task, now).0)
  {
  }

  lemma ClaimNumbers(db: Db, id: Id, device: DeviceId, now: Time)
    ensures LeavesTokens(db, ClaimTask(db, id, device, now))
    ensures NumbersFit(db) ==> NumbersFit(ClaimTask(db, id, device, now).0)
  {
    hide PastExpiry, QueuedFor, WithStatus;
  }

  lemma StatusNumbers(db: Db, id: Id, device: DeviceId, status: Status, result: string, now: Time)
    ensures LeavesTokens(db, SetTaskStatus(db, id, device, status, result, now))
    ensures NumbersFit(db) ==> NumbersFit(SetTaskStatus(db, id, device, status, result, now).0)
  {
    hide WithStatus;
  }

  lemma AbandonNumbers(db: Db, device: DeviceId, now: Time)
    ensures LeavesTokens(db, (MarkLeasedUnknown(db, device, now), Done))
    ensures NumbersFit(db) ==> NumbersFit(MarkLeasedUnknown(db, device, now))
  {
    hide Abandoned;
  }

  lemma OthersNumbers(db: Db, c: Call)
    requires !TouchesEnrollments(c.op)
    ensures LeavesTokens(db, Apply(db, c))
    ensures NumbersFit(db) ==> NumbersFit(Apply(db, c).0)
  {
    hide CreateCredential, RevokeCredential, CreateTask, ClaimTask, SetTaskStatus, MarkLeasedUnknown, PendingTasks;
    match c.op
    case DoCreateCredential(name, actor, ttl) => CreateCredentialNumbers(db, name, actor, ttl, c.now);
    case DoRevokeCredential(id, actor) => RevokeCredentialNumbers(db, id, actor, c.now);
    case DoCreateTask(task) => CreateTaskNumbers(db, task, c.now);
    case DoClaim(id, device) => ClaimNumbers(db, id, device, c.now);
    case DoSetStatus(id, device, status, result) => StatusNumbers(db, id, device, status, result, c.now);
    case DoMarkLeasedUnknown(device) => AbandonNumbers(db, device, c.now);
    case _ =>
  }

  lemma OthersKeepEnrollments(db: Db, c: Call)
    requires !TouchesEnrollments(c.op)
    ensures Apply(db, c).0.enrollments == db.enrollments && Apply(db, c).0.agents == db.agents
    ensures db.drawn <= Apply(db, c).0.drawn && !Apply(db, c).1.Enrolled? && !Apply(db, c).1.Admitted?
  {
    hide Apply, NumbersFit;
    OthersNumbers(db, c);
  }

  lemma IssueNumbers(db: Db, token: Token, device: DeviceId, ttl: int, now: Time)
    requires Numbered(db)
    ensures
      var r := IssueEnrollment(db, token, device, ttl, now).0;
      TokensFit(r) && NumbersFit(r) && db.drawn <= r.drawn
  {
    hide DeviceIdRefused, Active, Earlier;
  }

  lemma OpenNumbers(db: Db, device: DeviceId, ttl: int, now: Time)
    requires Numbered(db)
    ensures
      var r := CreateEnrollment(db, device, ttl, now).0;
      TokensFit(r) && NumbersFit(r) && db.drawn <= r.drawn
  {
  }

  lemma ExchangeNumbers(db: Db, token: Token, device: DeviceId, now: Time)
    requires Numbered(db)
    ensures
      var r := ExchangeEnrollment(db, token, device, now).0;
      TokensFit(r) && NumbersFit(r) && db.drawn <= r.drawn
  {
    hide CanExchange;
  }

  lemma CleanNumbers(db: Db, before: Time, now: Time)
    requires Numbered(db)
    ensures TokensFit(Clean(db, before, now)) && NumbersFit(Clean(db, before, now))
    ensures Clean(db, before, now).drawn == db.drawn
  {
    hide Recent, ExpireTask;
  }

  lemma ApplyNumbered(db: Db, c: Call)
    requires Numbered(db)
    ensures Numbered(Apply(db, c).0) && db.drawn <= Apply(db, c).0.drawn
  {
    hide IssueEnrollment, CreateEnrollment, ExchangeEnrollment, Clean;
    match c.op
    case DoIssueEnrollment(token, device, ttl) => IssueNumbers(db, token, device, ttl, c.now);
    case DoCreateEnrollment(device, ttl) => OpenNumbers(db, device, ttl, c.now);
    case DoExchange(token, device) => ExchangeNumbers(db, token, device, c.now);
    case DoClean(before) => CleanNumbers(db, before, c.now);
    case _ =>
      hide Apply;
      OthersNumbers(db, c);
  }

  lemma {:induction false} AfterNumbered(calls: seq<Call>)
    ensures Numbered(After(calls))
  {
    hide Apply;
    if calls != [] {
      AfterNumbered(calls[..|calls| - 1]);
      ApplyNumbered(After(calls[..|calls| - 1]), calls[|calls| - 1]);
    }
  }

  // ---------------------------------------------------------------- one call and one token

  /** A call spends a token when it exchanges it for an agent credential. */
  predicate Spends(db: Db, c: Call, token: Token) {
    c.op.DoExchange? && c.op.token == token && Apply(db, c).1.Admitted?
  }

  predicate Opens(db: Db, c: Call, token: Token, e: Enrollment) {
    Apply(db, c).1 == Enrolled(token, e)
  }

  /** A call that opens puts exactly the reported enrollment in the store, under a token never drawn before. */
  ghost predicate OpensOrNot(db: Db, r: (Db, Reply)) {
    && !r.1.Admitted?
    && (if r.1.Enrolled? then
          r.1.token == Random(db.drawn) && r.0.drawn == db.drawn + 1
          && r.0.enrollments == db.enrollments[Digest(r.1.token) := r.1.enrollment]
        else r.0.enrollments == db.enrollments)
  }

  lemma IssueOpens(db: Db, token: Token, device: DeviceId, ttl: int, now: Time)
    ensures OpensOrNot(db, IssueEnrollment(db, token, device, ttl, now))
  {
    hide DeviceIdRefused, Active, Earlier;
  }

  lemma CreateOpens(db: Db, device: DeviceId, ttl: int, now: Time)
    ensures OpensOrNot(db, CreateEnrollment(db, device, ttl, now))
  {
  }

  lemma ExchangeSpends(db: Db, token: Token, device: DeviceId, now: Time)
    ensures
      var r := ExchangeEnrollment(db, token, device, now);
      !r.1.Enrolled? && r.0.enrollments == if r.1.Admitted? then db.enrollments - {Digest(token)} else db.enrollments
  {
    hide CanExchange;
  }

  lemma CleanDrops(db: Db, before: Time, now: Time)
    ensures forall g :: g in Clean(db, before, now).enrollments <==>
      g in db.enrollments && now < db.enrollments[g].expiresAt
    ensures forall g | g in Clean(db, before, now).enrollments ::
      Clean(db, before, now).enrollments[g] == db.enrollments[g]
  {
    hide Recent, ExpireTask;
  }

  /** What every call does to the enrollments. */
  lemma EnrollmentEffect(db: Db, c: Call)
    ensures
      var r := Apply(db, c);
      if c.op.DoExchange? then
        !r.1.Enrolled? && r.0.enrollments ==
          if r.1.Admitted? then db.enrollments - {Digest(c.op.token)} else db.enrollments
      else if c.op.DoClean? then
        !r.1.Enrolled?
        && (forall g :: g in r.0.enrollments <==> g in db.enrollments && c.now < db.enrollments[g].expiresAt)
        && (forall g | g in r.0.enrollments :: r.0.enrollments[g] == db.enrollments[g])
      else OpensOrNot(db, r)
  {
    hide IssueEnrollment, CreateEnrollment, ExchangeEnrollment, Clean;
    match c.op
    case DoIssueEnrollment(token, device, ttl) => IssueOpens(db, token, device, ttl, c.now);
    case DoCreateEnrollment(device, ttl) => CreateOpens(db, device, ttl, c.now);
    case DoExchange(token, device) => ExchangeSpends(db, token, device, c.now);
    case DoClean(before) => CleanDrops(db, before, c.now);
    case _ =>
      hide Apply;
      OthersKeepEnrollments(db, c);
  }

  /** A token drawn before stays in the store until it is spent, or cleaned away after its expiry. */
  lemma DrawnTokenFate(db: Db, c: Call, token: Token)
    requires Numbered(db) && token.Random? && token.nonce < db.drawn
    ensures Digest(token) in Apply(db, c).0.enrollments <==>
      (Digest(token) in db.enrollments && !Spends(db, c, token)
       && !(c.op.DoClean? && c.now >= db.enrollments[Digest(token)].expiresAt))
    ensures Digest(token) in Apply(db, c).0.enrollments ==>
      Apply(db, c).0.enrollments[Digest(token)] == db.enrollments[Digest(token)]
  {
    hide Apply;
    EnrollmentEffect(db, c);
  }

  lemma OpeningStores(db: Db, c: Call, token: Token, e: Enrollment)
    requires Opens(db, c, token, e)
    ensures token == Random(db.drawn) && Apply(db, c).0.drawn == db.drawn + 1
    ensures Apply(db, c).0.enrollments == db.enrollments[Digest(token) := e]
  {
    hide Apply;
    EnrollmentEffect(db, c);
  }

  /** Only opening adds an enrollment. */
  lemma OnlyOpeningAdds(db: Db, c: Call, token: Token)
    requires Digest(token) in Apply(db, c).0.enrollments
    ensures (Digest(token) in db.enrollments
             && Apply(db, c).0.enrollments[Digest(token)] == db.enrollments[Digest(token)])
      || Opens(db, c, token, Apply(db, c).0.enrollments[Digest(token)])
  {
    hide Apply;
    EnrollmentEffect(db, c);
  }

  // ---------------------------------------------------------------- runs

  predicate OpensAt(calls: seq<Call>, k: nat, token: Token, e: Enrollment)
    requires k < |calls|
  {
    Opens(After(calls[..k]), calls[k], token, e)
  }

  predicate SpendsAt(calls: seq<Call>, k: nat, token: Token)
    requires k < |calls|
  {
    Spends(After(calls[..k]), calls[k], token)
  }

  /** An enrollment in the store was opened by some earlier call. */
  lemma {:induction false} Provenance(calls: seq<Call>, j: nat, token: Token)
    requires j <= |calls| && Digest(token) in After(calls[..j]).enrollments
    ensures exists k | 0 <= k < j :: OpensAt(calls, k, token, After(calls[..j]).enrollments[Digest(token)])
  {
    hide Apply, Opens;
    if j > 0 {
      AfterNext(calls, j - 1);
      AfterNumbered(calls[..j - 1]);
      OnlyOpeningAdds(After(calls[..j - 1]), calls[j - 1], token);
      if !OpensAt(calls, j - 1, token, After(calls[..j]).enrollments[Digest(token)]) {
        Provenance(calls, j - 1, token);
      }
    }
  }

  lemma {:induction false} OpenedIsDrawn(calls: seq<Call>, k: nat, j: nat, token: Token, e: Enrollment)
    requires k < j <= |calls| && OpensAt(calls, k, token, e)
    ensures token.Random? && token.nonce < After(calls[..j]).drawn
    decreases j
  {
    hide Apply, Opens, Numbered;
    AfterNext(calls, j - 1);
    AfterNumbered(calls[..j - 1]);
    ApplyNumbered(After(calls[..j - 1]), calls[j - 1]);
    if k < j - 1 {
      OpenedIsDrawn(calls, k, j - 1, token, e);
    } else {
      OpeningStores(After(calls[..k]), calls[k], token, e);
    }
  }

  /** An opened enrollment is in the store, as it was opened, until its token is spent or has expired. */
  lemma {:induction false} OpenedStays(calls: seq<Call>, k: nat, j: nat, token: Token, e: Enrollment)
    requires k < j <= |calls| && OpensAt(calls, k, token, e)
    requires forall i | k < i < j :: !SpendsAt(calls, i, token) && calls[i].now < e.expiresAt
    ensures Digest(token) in After(calls[..j]).enrollments && After(calls[..j]).enrollments[Digest(token)] == e
    decreases j
  {
    hide Apply, Opens, Spends, Numbered;
    AfterNext(calls, j - 1);
    AfterNumbered(calls[..j - 1]);
    if k < j - 1 {
      OpenedStays(calls, k, j - 1, token, e);
      OpenedIsDrawn(calls, k, j - 1, token, e);
      DrawnTokenFate(After(calls[..j - 1]), calls[j - 1], token);
      assert !SpendsAt(calls, j - 1, token);
    } else {
      OpeningStores(After(calls[..k]), calls[k], token, e);
    }
  }

  /** A spent token is gone for good. */
  lemma {:induction false} SpentIsGone(calls: seq<Call>, i: nat, j: nat, token: Token)
    requires i < j <= |calls| && SpendsAt(calls, i, token)
    ensures token.Random? && token.nonce < After(calls[..j]).drawn && Digest(token) !in After(calls[..j]).enrollments
    decreases j
  {
    hide Apply, Opens, Spends;
    AfterNext(calls, j - 1);
    AfterNumbered(calls[..j - 1]);
    ApplyNumbered(After(calls[..j - 1]), calls[j - 1]);
    if i < j - 1 {
      SpentIsGone(calls, i, j - 1, token);
    } else {
      SpendingNeeds(After(calls[..i]), calls[i], token);
    }
    DrawnTokenFate(After(calls[..j - 1]), calls[j - 1], token);
  }

  lemma SpendingNeeds(db: Db, c: Call, token: Token)
    requires Spends(db, c, token)
    ensures Digest(token) in db.enrollments && CanExchange(db, token, c.op.device, c.now)
    ensures Apply(db, c).1.device == c.op.device
  {
    hide IssuerAllows;
  }

  // ---------------------------------------------------------------- issuers

  /** What of a credential never changes. */
  predicate SameCredential(c: Credential, d: Credential) {
    c.id == d.id && c.scope == d.scope && c.expiresAt == d.expiresAt && c.hash == d.hash
    && (c.revokedAt.Some? ==> d.revokedAt == c.revokedAt)
  }

  lemma CreateKeepsCredential(db: Db, name: string, actor: string, ttl: int, now: Time, id: Id)
    requires Numbered(db) && id in db.credentials
    ensures
      var r := CreateCredential(db, name, actor, ttl, now).0;
      id in r.credentials && SameCredential(db.credentials[id], r.credentials[id])
  {
    hide CredentialRefused, Trim;
  }

  lemma RevokeKeepsCredential(db: Db, revoked: Id, actor: string, now: Time, id: Id)
    requires Numbered(db) && id in db.credentials
    ensures
      var r := RevokeCredential(db, revoked, actor, now).0;
      id in r.credentials && SameCredential(db.credentials[id], r.credentials[id])
  {
  }

  lemma IssueKeepsCredential(db: Db, token: Token, device: DeviceId, ttl: int, now: Time, id: Id)
    requires Numbered(db) && id in db.credentials
    ensures
      var r := IssueEnrollment(db, token, device, ttl, now).0;
      id in r.credentials && SameCredential(db.credentials[id], r.credentials[id])
  {
    hide DeviceIdRefused, Active, Earlier;
  }

  lemma CredentialStays(db: Db, c: Call, id: Id)
    requires Numbered(db) && id in db.credentials
    ensures id in Apply(db, c).0.credentials && SameCredential(db.credentials[id], Apply(db, c).0.credentials[id])
  {
    hide CreateCredential, RevokeCredential, IssueEnrollment, Numbered;
    match c.op
    case DoCreateCredential(name, actor, ttl) => CreateKeepsCredential(db, name, actor, ttl, c.now, id);
    case DoRevokeCredential(revoked, actor) => RevokeKeepsCredential(db, revoked, actor, c.now, id);
    case DoIssueEnrollment(token, device, ttl) => IssueKeepsCredential(db, token, device, ttl, c.now, id);
    case _ => OthersKeepCredentials(db, c);
  }

  lemma OthersKeepCredentials(db: Db, c: Call)
    requires !c.op.DoCreateCredential? && !c.op.DoRevokeCredential? && !c.op.DoIssueEnrollment?
    ensures Apply(db, c).0.credentials == db.credentials
  {
    hide Recent, ExpireTask, Abandoned, CanExchange, PastExpiry, QueuedFor, WithStatus, PendingTasks;
  }

  lemma {:induction false} CredentialsStay(calls: seq<Call>, i: nat, j: nat, id: Id)
    requires i <= j <= |calls| && id in After(calls[..i]).credentials
    ensures id in After(calls[..j]).credentials
    ensures SameCredential(After(calls[..i]).credentials[id], After(calls[..j]).credentials[id])
    decreases j
  {
    hide Apply, Numbered;
    if i < j {
      CredentialsStay(calls, i, j - 1, id);
      AfterNext(calls, j - 1);
      AfterNumbered(calls[..j - 1]);
      CredentialStays(After(calls[..j - 1]), calls[j - 1], id);
    }
  }

  lemma AgentStays(db: Db, c: Call, token: Token, device: DeviceId)
    requires Numbered(db) && AgentValid(db, token, device)
    ensures AgentValid(Apply(db, c).0, token, device)
  {
    if TouchesEnrollments(c.op) {
      hide DeviceIdRefused, Recent, ExpireTask, IssuerAllows, Active;
    } else {
      hide Apply;
      OthersKeepEnrollments(db, c);
    }
  }

  /** An enrollment with an issuer was opened by it, and outlives neither its deadline nor fifteen minutes. */
  lemma IssuedInTime(db: Db, c: Call, token: Token, e: Enrollment)
    requires Numbered(db) && Opens(db, c, token, e) && e.issuer.Some?
    ensures e.issuer.value in db.credentials && Active(db.credentials[e.issuer.value], c.now)
    ensures c.op.DoIssueEnrollment? && c.op.device == e.device
    ensures Digest(c.op.token) == db.credentials[e.issuer.value].hash
    ensures c.now < e.expiresAt <= c.now + MAX_TTL
    ensures db.credentials[e.issuer.value].expiresAt.Some? ==>
      e.expiresAt <= db.credentials[e.issuer.value].expiresAt.value
  {
    hide DeviceIdRefused, CredentialRefused, Trim, Recent, ExpireTask, Abandoned, IssuerAllows;
  }

  // ---------------------------------------------------------------- the theorems

  /** A token is unspent before a call when no earlier call exchanged it. */
  predicate UnspentBefore(calls: seq<Call>, j: nat, token: Token)
    requires j <= |calls|
  {
    forall i | 0 <= i < j :: !SpendsAt(calls, i, token)
  }

  /** An enrollment lets a device in at an instant. */
  predicate Admits(db: Db, e: Enrollment, device: DeviceId, now: Time) {
    now < e.expiresAt && (e.device == "" || e.device == device) && IssuerAllows(db, e, now)
  }

  /**
   * An exchange succeeds exactly when its token was opened by an earlier call, was never spent, has not expired,
   * is bound to no other device and, if a deployment credential issued it, that credential is still active.
   */
  lemma ExchangeByStore(calls: seq<Call>, j: nat)
    requires Monotone(calls) && j < |calls| && calls[j].op.DoExchange?
    ensures ReplyTo(calls, j).Admitted? <==>
      (UnspentBefore(calls, j, calls[j].op.token)
       && exists k, e | 0 <= k < j && OpensAt(calls, k, calls[j].op.token, e) ::
            Admits(After(calls[..j]), e, calls[j].op.device, calls[j].now))
    ensures ReplyTo(calls, j).Admitted? ==> ReplyTo(calls, j).device == calls[j].op.device
  {
    hide Opens, IssuerAllows, Monotone;
    var db, token, device, now := After(calls[..j]), calls[j].op.token, calls[j].op.device, calls[j].now;
    assert ReplyTo(calls, j).Admitted? <==> CanExchange(db, token, device, now);
    if ReplyTo(calls, j).Admitted? {
      forall i | 0 <= i < j ensures !SpendsAt(calls, i, token) {
        if SpendsAt(calls, i, token) { SpentIsGone(calls, i, j, token); }
      }
      Provenance(calls, j, token);
      assert Admits(db, db.enrollments[Digest(token)], device, now);
    }
    if UnspentBefore(calls, j, token) {
      forall k, e | 0 <= k < j && OpensAt(calls, k, token, e) && Admits(db, e, device, now)
        ensures CanExchange(db, token, device, now)
      {
        StillOpen(calls, k, j, token, e);
      }
    }
  }

  lemma StillOpen(calls: seq<Call>, k: nat, j: nat, token: Token, e: Enrollment)
    requires Monotone(calls) && k < j < |calls| && OpensAt(calls, k, token, e)
    requires UnspentBefore(calls, j, token) && calls[j].now < e.expiresAt
    ensures Digest(token) in After(calls[..j]).enrollments && After(calls[..j]).enrollments[Digest(token)] == e
  {
    hide Opens, Spends;
    forall i | k < i < j ensures !SpendsAt(calls, i, token) && calls[i].now < e.expiresAt {
      assert calls[i].now <= calls[j].now;
    }
    OpenedStays(calls, k, j, token, e);
  }

  /** No token is exchanged twice. */
  lemma SpentOnce(calls: seq<Call>, i: nat, j: nat, token: Token)
    requires i < j < |calls| && SpendsAt(calls, i, token)
    ensures !SpendsAt(calls, j, token)
  {
    hide Spends;
    SpentIsGone(calls, i, j, token);
    if SpendsAt(calls, j, token) { SpendingNeeds(After(calls[..j]), calls[j], token); }
  }

  /**
   * An exchange of an issued enrollment happens within fifteen minutes of the issue and before the issuer's deadline.
   */
  lemma ExchangedInTime(calls: seq<Call>, k: nat, j: nat, token: Token, e: Enrollment)
    requires k < j < |calls| && OpensAt(calls, k, token, e) && e.issuer.Some? && SpendsAt(calls, j, token)
    requires Monotone(calls)
    ensures e.issuer.value in After(calls[..k + 1]).credentials && e.issuer.value in After(calls[..j]).credentials
    ensures Active(After(calls[..j]).credentials[e.issuer.value], calls[j].now)
    ensures calls[j].now < calls[k].now + MAX_TTL
    ensures After(calls[..k + 1]).credentials[e.issuer.value].expiresAt.Some? ==>
      calls[j].now < After(calls[..k + 1]).credentials[e.issuer.value].expiresAt.value
  {
    hide Opens, Spends, Monotone, Numbered, Apply;
    AfterNumbered(calls[..k]);
    AfterNext(calls, k);
    IssuedInTime(After(calls[..k]), calls[k], token, e);
    CredentialStays(After(calls[..k]), calls[k], e.issuer.value);
    SpendingNeeds(After(calls[..j]), calls[j], token);
    OnlyOpening(calls, k, j, token, e);
    CredentialsStay(calls, k + 1, j, e.issuer.value);
  }

  /** The enrollment in the store under an opened token is the one that was opened. */
  lemma {:induction false} OnlyOpening(calls: seq<Call>, k: nat, j: nat, token: Token, e: Enrollment)
    requires k < j <= |calls| && OpensAt(calls, k, token, e) && Digest(token) in After(calls[..j]).enrollments
    ensures After(calls[..j]).enrollments[Digest(token)] == e
    decreases j
  {
    hide Apply, Opens, Spends, Numbered;
    AfterNext(calls, j - 1);
    AfterNumbered(calls[..j - 1]);
    if k < j - 1 {
      OpenedIsDrawn(calls, k, j - 1, token, e);
      DrawnTokenFate(After(calls[..j - 1]), calls[j - 1], token);
      OnlyOpening(calls, k, j - 1, token, e);
    } else {
      OpeningStores(After(calls[..k]), calls[k], token, e);
    }
  }

  /** Once an issuer is revoked, nothing it issues or issued lets a device in. */
  lemma RevokedIssuerAdmitsNone(calls: seq<Call>, i: nat, j: nat, id: Id)
    requires i <= j < |calls| && id in After(calls[..i]).credentials
    requires After(calls[..i]).credentials[id].revokedAt.Some?
    ensures forall token, e | OpensAt(calls, j, token, e) :: e.issuer != Some(id)
    ensures forall k, token, e | 0 <= k < j && OpensAt(calls, k, token, e) && e.issuer == Some(id) ::
      !SpendsAt(calls, j, token)
  {
    hide Opens, Spends, Numbered, Apply;
    CredentialsStay(calls, i, j, id);
    AfterNumbered(calls[..j]);
    forall token, e | OpensAt(calls, j, token, e) ensures e.issuer != Some(id) {
      if e.issuer == Some(id) { IssuedInTime(After(calls[..j]), calls[j], token, e); }
    }
    forall k, token, e | 0 <= k < j && OpensAt(calls, k, token, e) && e.issuer == Some(id)
      ensures !SpendsAt(calls, j, token)
    {
      if SpendsAt(calls, j, token) {
        SpendingNeeds(After(calls[..j]), calls[j], token);
        OnlyOpening(calls, k, j, token, e);
      }
    }
  }

  /** An agent credential, once minted, is valid for its device in every later state, whatever is revoked or cleaned. */
  lemma {:induction false} MintedStaysValid(calls: seq<Call>, i: nat, j: nat)
    requires i < j <= |calls| && ReplyTo(calls, i).Admitted?
    ensures AgentValid(After(calls[..j]), ReplyTo(calls, i).token, ReplyTo(calls, i).device)
    decreases j
  {
    hide Apply, Numbered, AgentValid;
    AfterNext(calls, j - 1);
    AfterNumbered(calls[..j - 1]);
    if i < j - 1 {
      MintedStaysValid(calls, i, j - 1);
      AgentStays(After(calls[..j - 1]), calls[j - 1], ReplyTo(calls, i).token, ReplyTo(calls, i).device);
    } else {
      MintedIsValid(After(calls[..i]), calls[i]);
    }
  }

  lemma MintedIsValid(db: Db, c: Call)
    requires Apply(db, c).1.Admitted?
    ensures AgentValid(Apply(db, c).0, Apply(db, c).1.token, Apply(db, c).1.device)
  {
  }

  // ---------------------------------------------------------------- agent credentials come from nowhere else

  /** Only an exchange makes an agent credential valid. */
  lemma {:induction false} AgentsWereAdmitted(calls: seq<Call>, j: nat, token: Token, device: DeviceId)
    requires j <= |calls| && AgentValid(After(calls[..j]), token, device)
    ensures exists i | 0 <= i < j :: ReplyTo(calls, i) == Admitted(token, device)
  {
    hide Apply;
    if j > 0 {
      AfterNext(calls, j - 1);
      if !AgentValid(After(calls[..j - 1]), token, device) {
        NewAgentWasAdmitted(After(calls[..j - 1]), calls[j - 1], token, device);
        assert ReplyTo(calls, j - 1) == Admitted(token, device);
      } else {
        AgentsWereAdmitted(calls, j - 1, token, device);
      }
    }
  }

  lemma NewAgentWasAdmitted(db: Db, c: Call, token: Token, device: DeviceId)
    requires !AgentValid(db, token, device) && AgentValid(Apply(db, c).0, token, device)
    ensures Apply(db, c).1 == Admitted(token, device)
  {
    if TouchesEnrollments(c.op) {
      hide DeviceIdRefused, Recent, ExpireTask, IssuerAllows, Active;
    } else {
      hide Apply;
      OthersKeepEnrollments(db, c);
    }
  }
}
