/** How the PostgreSQL-backed store makes changes durable while many requests run at once. */
module Durability {
  import opened Wrappers
  import opened StoreModel
  import opened EnrollmentSafety

  // ---------------------------------------------------------------- the operations

  /** Reads write nothing; strict operations report a failed write to their caller, the others ignore it. */
  datatype Kind = Read | Strict | Lax

  function KindOf(op: Op): Kind {
    match op
    case DoValidateAgent(_, _) => Read
    case DoUserTokenRevoked(_) => Read
    case DoPendingTasks(_) => Read
    case DoCreateCredential(_, _, _) => Strict
    case DoRevokeCredential(_, _) => Strict
    case DoIssueEnrollment(_, _, _) => Strict
    case DoExchange(_, _) => Strict
    case DoRevokeUserToken(_, _) => Strict
    case _ => Lax
  }

  /** Operations that refuse to start while the last write has failed. */
  predicate ChecksHealth(op: Op) {
    op.DoCreateCredential? || op.DoIssueEnrollment? || op.DoExchange?
  }

  // ---------------------------------------------------------------- the protocol

  /** Where a request is. A change is numbered by how many calls the memory had seen once it was made. */
  datatype Phase =
    | Idle
    | Cleared(call: Call)
    | Changed(call: Call, reply: Reply, version: nat)
    | Holding(call: Call, reply: Reply, version: nat)
    | Snapped(call: Call, reply: Reply, version: nat, image: Db, imageVersion: nat)
    | Wrote(call: Call, reply: Reply, version: nat, ok: bool)

  /** What a request's caller got: a value, or None for an error of the database. */
  datatype Ack = Ack(call: Call, version: nat, outcome: Option<Reply>)

  /** A write succeeds, is refused, or is made although its caller sees an error. */
  datatype WriteResult = Written | Refused | WrittenButLost

  datatype System = System(
    calls: seq<Call>, memory: Db, row: Db, rowVersion: nat,
    holder: Option<nat>, healthy: bool, requests: map<nat, Phase>, acks: seq<Ack>)

  const INITIAL := System([], EMPTY, EMPTY, 0, None, true, map[], [])

  function PhaseOf(s: System, r: nat): Phase {
    if r in s.requests then s.requests[r] else Idle
  }

  function Become(s: System, r: nat, p: Phase): System {
    s.(requests := s.requests[r := p])
  }

  datatype Event =
    | Begin(r: nat, call: Call)
    | Mutate(r: nat)
    | Lock(r: nat)
    | Snapshot(r: nat)
    | Write(r: nat, result: WriteResult)
    | Unlock(r: nat)
    | Restart(now: Time)

  function Begins(s: System, r: nat, call: Call): System {
    if ChecksHealth(call.op) && !s.healthy then s.(acks := s.acks + [Ack(call, 0, None)])
    else Become(s, r, Cleared(call))
  }

  function Mutates(s: System, r: nat, call: Call): System {
    var (db, reply) := Apply(s.memory, call);
    var s1 := s.(calls := s.calls + [call], memory := db);
    var version := |s.calls| + 1;
    if KindOf(call.op).Read? || reply.Failed? then
      Become(s1.(acks := s.acks + [Ack(call, version, Some(reply))]), r, Idle)
    else Become(s1, r, Changed(call, reply, version))
  }

  function Writes(s: System, r: nat, p: Phase, result: WriteResult): System
    requires p.Snapped?
  {
    var s1 := if result.Refused? then s else s.(row := p.image, rowVersion := p.imageVersion);
    Become(s1.(healthy := result.Written?), r, Wrote(p.call, p.reply, p.version, result.Written?))
  }

  function Unlocks(s: System, r: nat, p: Phase): System
    requires p.Wrote?
  {
    var outcome := if KindOf(p.call.op).Strict? && !p.ok then None else Some(p.reply);
    Become(s.(holder := None, acks := s.acks + [Ack(p.call, p.version, outcome)]), r, Idle)
  }

  /** The process ends, with all its requests, and a new one loads the row. What callers were told stays told. */
  function Restarts(s: System, now: Time): System
    requires s.rowVersion <= |s.calls|
  {
    var skip := Call(DoSkip(s.memory.drawn), now);
    s.(calls := s.calls[..s.rowVersion] + [skip], memory := Skip(s.row, s.memory.drawn),
       holder := None, healthy := true, requests := map[])
  }

  /** A restart, or one atomic step of one request; a step the request is not at does nothing. */
  function Step(s: System, e: Event): System {
    if e.Restart? then if s.rowVersion <= |s.calls| then Restarts(s, e.now) else s else StepOf(s, e)
  }

  function StepOf(s: System, e: Event): System
    requires !e.Restart?
  {
    var p := PhaseOf(s, e.r);
    match e
    case Begin(r, call) => if p.Idle? && !call.op.DoSkip? then Begins(s, r, call) else s
    case Mutate(r) => if p.Cleared? then Mutates(s, r, p.call) else s
    case Lock(r) =>
      if p.Changed? && s.holder.None? then Become(s.(holder := Some(r)), r, Holding(p.call, p.reply, p.version)) else s
    case Snapshot(r) =>
      if p.Holding? then Become(s, r, Snapped(p.call, p.reply, p.version, s.memory, |s.calls|)) else s
    case Write(r, result) => if p.Snapped? then Writes(s, r, p, result) else s
    case Unlock(r) => if p.Wrote? then Unlocks(s, r, p) else s
  }

  function Run(events: seq<Event>): System {
    if events == [] then INITIAL else Step(Run(events[..|events| - 1]), events[|events| - 1])
  }

  // ---------------------------------------------------------------- the invariant

  predicate Persisting(p: Phase) {
    p.Holding? || p.Snapped? || p.Wrote?
  }

  /** The change with a version is the call of that number, and the reply is the one it got. */
  predicate Made(calls: seq<Call>, version: nat, call: Call, reply: Reply) {
    0 < version <= |calls| && calls[version - 1] == call && ReplyTo(calls, version - 1) == reply
  }

  predicate PhaseFits(s: System, p: Phase) {
    && (p.Changed? || Persisting(p) ==> Made(s.calls, p.version, p.call, p.reply) && !p.reply.Failed?)
    && (p.Snapped? ==>
          p.imageVersion <= |s.calls| && p.version <= p.imageVersion && s.rowVersion <= p.imageVersion
          && p.image == After(s.calls[..p.imageVersion]))
    && (p.Wrote? && p.ok ==> p.version <= s.rowVersion)
  }

  /** A strict operation's success was given by the memory, and its change is in the row. */
  predicate AckFits(s: System, a: Ack) {
    a.outcome.Some? && KindOf(a.call.op).Strict? && !a.outcome.value.Failed? ==>
      Made(s.calls, a.version, a.call, a.outcome.value) && a.version <= s.rowVersion
  }

  ghost predicate Durable(s: System) {
    && s.memory == After(s.calls)
    && s.rowVersion <= |s.calls| && s.row == After(s.calls[..s.rowVersion])
    && (forall r | r in s.requests :: PhaseFits(s, s.requests[r]))
    && (forall r: nat :: Persisting(PhaseOf(s, r)) <==> s.holder == Some(r))
    && (forall a | a in s.acks :: AckFits(s, a))
  }

  lemma MadeStays(calls: seq<Call>, next: Call, version: nat, call: Call, reply: Reply)
    requires Made(calls, version, call, reply)
    ensures Made(calls + [next], version, call, reply)
  {
    hide Apply;
    assert (calls + [next])[..version - 1] == calls[..version - 1];
  }

  /** A call more in memory changes nothing about what was there. */
  lemma OneMoreCall(s: System, call: Call)
    requires Durable(s)
    ensures Durable(s.(calls := s.calls + [call], memory := Apply(s.memory, call).0))
    ensures Made(s.calls + [call], |s.calls| + 1, call, Apply(s.memory, call).1)
  {
    hide Apply, Persisting, Made, After;
    var t := s.(calls := s.calls + [call], memory := Apply(s.memory, call).0);
    AfterOneMore(s.calls, call);
    assert t.calls[..s.rowVersion] == s.calls[..s.rowVersion];
    forall r | r in t.requests ensures PhaseFits(t, t.requests[r]) { PhaseStays(s, call, s.requests[r]); }
    forall a | a in t.acks ensures AckFits(t, a) {
      if a.outcome.Some? && KindOf(a.call.op).Strict? && !a.outcome.value.Failed? {
        MadeStays(s.calls, call, a.version, a.call, a.outcome.value);
      }
    }
  }

  lemma AfterOneMore(calls: seq<Call>, call: Call)
    ensures After(calls + [call]) == Apply(After(calls), call).0
    ensures Made(calls + [call], |calls| + 1, call, Apply(After(calls), call).1)
  {
    hide Apply;
    assert (calls + [call])[..|calls|] == calls;
  }

  lemma PhaseStays(s: System, call: Call, p: Phase)
    requires PhaseFits(s, p)
    ensures PhaseFits(s.(calls := s.calls + [call], memory := Apply(s.memory, call).0), p)
  {
    hide Apply, Made, After;
    if p.Changed? || Persisting(p) { MadeStays(s.calls, call, p.version, p.call, p.reply); }
    if p.Snapped? { assert (s.calls + [call])[..p.imageVersion] == s.calls[..p.imageVersion]; }
  }

  lemma MutateKeeps(s: System, r: nat, call: Call)
    requires Durable(s) && PhaseOf(s, r).Cleared?
    ensures Durable(Mutates(s, r, call))
  {
    hide Apply, Made, After;
    OneMoreCall(s, call);
    var s1 := s.(calls := s.calls + [call], memory := Apply(s.memory, call).0);
    var t := Mutates(s, r, call);
    forall q | q in t.requests ensures PhaseFits(t, t.requests[q]) {
      if q != r { assert PhaseFits(s1, s1.requests[q]); }
    }
    forall a | a in t.acks ensures AckFits(t, a) {
      if a in s1.acks { assert AckFits(s1, a); }
    }
  }

  /** A request's step that touches neither memory nor row leaves what is said of the others. */
  lemma StaysElsewhere(s: System, r: nat, t: System)
    requires Durable(s)
    requires t.calls == s.calls && t.rowVersion == s.rowVersion && t.acks == s.acks
    requires t.requests.Keys <= s.requests.Keys + {r}
    requires forall q | q in t.requests && q != r :: q in s.requests && t.requests[q] == s.requests[q]
    ensures forall q | q in t.requests && q != r :: PhaseFits(t, t.requests[q])
    ensures forall a | a in t.acks :: AckFits(t, a)
    ensures PhaseFits(s, PhaseOf(s, r))
  {
    hide Apply, Made, After, ReplyTo;
    forall q | q in t.requests && q != r ensures PhaseFits(t, t.requests[q]) { assert PhaseFits(s, s.requests[q]); }
    forall a | a in t.acks ensures AckFits(t, a) { assert AckFits(s, a); }
  }

  lemma LockKeeps(s: System, r: nat)
    requires Durable(s)
    ensures Durable(Step(s, Lock(r)))
  {
    hide Apply, Made, After, ReplyTo;
    StaysElsewhere(s, r, Step(s, Lock(r)));
  }

  lemma SnapshotKeeps(s: System, r: nat)
    requires Durable(s)
    ensures Durable(Step(s, Snapshot(r)))
  {
    hide Apply, After, ReplyTo;
    assert s.calls[..|s.calls|] == s.calls;
    StaysElsewhere(s, r, Step(s, Snapshot(r)));
  }

  lemma WriteKeeps(s: System, r: nat, result: WriteResult)
    requires Durable(s)
    ensures Durable(Step(s, Write(r, result))) && s.rowVersion <= Step(s, Write(r, result)).rowVersion
  {
    hide Apply, Made, After, ReplyTo;
    var p := PhaseOf(s, r);
    if p.Snapped? {
      assert PhaseFits(s, p) && s.holder == Some(r);
      var t := Step(s, Write(r, result));
      forall q | q in t.requests ensures PhaseFits(t, t.requests[q]) {
        if q != r { assert PhaseFits(s, s.requests[q]) && !Persisting(PhaseOf(s, q)); }
      }
      forall a | a in t.acks ensures AckFits(t, a) { assert AckFits(s, a); }
    }
  }

  lemma UnlockKeeps(s: System, r: nat)
    requires Durable(s)
    ensures Durable(Step(s, Unlock(r)))
  {
    hide Apply, Made, After, ReplyTo;
    var p := PhaseOf(s, r);
    if p.Wrote? {
      assert PhaseFits(s, p) && s.holder == Some(r);
      var t := Step(s, Unlock(r));
      forall q | q in t.requests ensures PhaseFits(t, t.requests[q]) {
        if q != r { assert PhaseFits(s, s.requests[q]); }
      }
      forall a | a in t.acks ensures AckFits(t, a) {
        if a in s.acks { assert AckFits(s, a); }
      }
    }
  }

  lemma BeginKeeps(s: System, r: nat, call: Call)
    requires Durable(s)
    ensures Durable(Step(s, Begin(r, call)))
  {
    hide Apply, Made, After, ReplyTo;
    var t := Step(s, Begin(r, call));
    forall a | a in t.acks ensures AckFits(t, a) {
      if a in s.acks { assert AckFits(s, a); }
    }
  }

  lemma MadeWithin(calls: seq<Call>, n: nat, next: Call, version: nat, call: Call, reply: Reply)
    requires Made(calls, version, call, reply) && version <= n <= |calls|
    ensures Made(calls[..n] + [next], version, call, reply)
  {
    hide Apply;
    assert (calls[..n] + [next])[..version - 1] == calls[..version - 1];
  }

  lemma SkipIsApplied(db: Db, drawn: nat, now: Time)
    ensures Apply(db, Call(DoSkip(drawn), now)) == (Skip(db, drawn), Done)
  {
  }

  lemma RestartKeeps(s: System, now: Time)
    requires Durable(s)
    ensures Durable(Restarts(s, now))
  {
    hide Apply, Made, After;
    var stored, skip, t := s.calls[..s.rowVersion], Call(DoSkip(s.memory.drawn), now), Restarts(s, now);
    AfterOneMore(stored, skip);
    SkipIsApplied(s.row, s.memory.drawn, now);
    assert t.calls[..s.rowVersion] == stored;
    forall a | a in t.acks ensures AckFits(t, a) {
      assert AckFits(s, a);
      if a.outcome.Some? && KindOf(a.call.op).Strict? && !a.outcome.value.Failed? {
        MadeWithin(s.calls, s.rowVersion, skip, a.version, a.call, a.outcome.value);
      }
    }
  }

  /** The calls whose changes are in the row. */
  function Stored(s: System): seq<Call>
    requires s.rowVersion <= |s.calls|
  {
    s.calls[..s.rowVersion]
  }

  lemma StepKeeps(s: System, e: Event)
    requires Durable(s)
    ensures Durable(Step(s, e)) && s.rowVersion <= Step(s, e).rowVersion
    ensures s.rowVersion <= |s.calls| && Step(s, e).rowVersion <= |Step(s, e).calls| && Stored(s) <= Stored(Step(s, e))
  {
    hide Durable, Apply, StepOf, Restarts;
    DurableRow(s);
    if e.Restart? { RestartKeeps(s, e.now); } else { RequestKeeps(s, e); }
    DurableRow(Step(s, e));
    CallsStay(s, e);
    assert e.Restart? || s.calls[..s.rowVersion] == Step(s, e).calls[..s.rowVersion];
  }

  lemma RequestKeeps(s: System, e: Event)
    requires Durable(s) && !e.Restart?
    ensures Durable(Step(s, e)) && s.rowVersion <= Step(s, e).rowVersion
  {
    hide Durable, Apply;
    match e
    case Begin(r, call) => BeginKeeps(s, r, call);
    case Mutate(r) => if PhaseOf(s, r).Cleared? { MutateKeeps(s, r, PhaseOf(s, r).call); }
    case Lock(r) => LockKeeps(s, r);
    case Snapshot(r) => SnapshotKeeps(s, r);
    case Write(r, result) => WriteKeeps(s, r, result);
    case Unlock(r) => UnlockKeeps(s, r);
  }

  lemma CallsStay(s: System, e: Event)
    requires s.rowVersion <= |s.calls|
    ensures if e.Restart? then Step(s, e).rowVersion == s.rowVersion && Stored(s) <= Step(s, e).calls
            else s.calls <= Step(s, e).calls
  {
    hide Apply, KindOf, ChecksHealth;
  }

  // ---------------------------------------------------------------- the theorems

  /** The operations whose success promises that it will be remembered. */
  predicate Promises(op: Op) {
    op.DoCreateCredential? || op.DoRevokeCredential? || op.DoIssueEnrollment? || op.DoExchange? || op.DoRevokeUserToken?
  }

  predicate OnlyReads(op: Op) {
    op.DoValidateAgent? || op.DoUserTokenRevoked? || op.DoPendingTasks?
  }

  /** The operations that hand out a credential, and are refused while the store cannot remember it. */
  predicate NeedsHealth(op: Op) {
    op.DoCreateCredential? || op.DoIssueEnrollment? || op.DoExchange?
  }

  lemma KindsAre(op: Op)
    ensures (KindOf(op).Strict? <==> Promises(op)) && (KindOf(op).Read? <==> OnlyReads(op))
    ensures ChecksHealth(op) <==> NeedsHealth(op)
  {
  }

  /** In every interleaving, and over restarts, the row holds a past state of the memory. */
  lemma {:induction false} RowIsAlwaysPast(events: seq<Event>)
    ensures Durable(Run(events)) && Run(events).rowVersion <= |Run(events).calls|
    ensures Run(events).memory == After(Run(events).calls)
    ensures Run(events).row == After(Run(events).calls[..Run(events).rowVersion])
  {
    hide Step, After, Durable;
    if events == [] {
      InitiallyDurable();
    } else {
      RowIsAlwaysPast(events[..|events| - 1]);
      StepKeeps(Run(events[..|events| - 1]), events[|events| - 1]);
    }
    DurableRow(Run(events));
  }

  lemma InitiallyDurable()
    ensures Durable(INITIAL)
  {
  }

  lemma DurableRow(s: System)
    requires Durable(s)
    ensures s.rowVersion <= |s.calls| && s.row == After(s.calls[..s.rowVersion]) && s.memory == After(s.calls)
  {
    hide After;
  }

  /** The row's version never goes back, and what it holds is never taken back, over any number of restarts. */
  lemma {:induction false} VersionNeverGoesBack(events: seq<Event>, i: nat)
    requires i <= |events|
    ensures Run(events[..i]).rowVersion <= |Run(events[..i]).calls| && Run(events).rowVersion <= |Run(events).calls|
    ensures Run(events[..i]).rowVersion <= Run(events).rowVersion && Stored(Run(events[..i])) <= Stored(Run(events))
  {
    hide Step, Durable;
    if i < |events| {
      var front := events[..|events| - 1];
      assert front[..i] == events[..i];
      VersionNeverGoesBack(front, i);
      RowIsAlwaysPast(front);
      StepKeeps(Run(front), events[|events| - 1]);
    } else {
      assert events[..i] == events;
      RowIsAlwaysPast(events);
    }
  }

  /** Once a strict operation has answered with success, every later row and every later memory contains its change. */
  lemma AcknowledgedIsDurable(events: seq<Event>, i: nat, a: Ack)
    requires i <= |events| && a in Run(events[..i]).acks
    requires Promises(a.call.op) && a.outcome.Some? && !a.outcome.value.Failed?
    ensures
      var s := Run(events);
      0 < a.version <= s.rowVersion <= |s.calls| && s.row == After(s.calls[..s.rowVersion])
      && s.memory == After(s.calls)
      && s.calls[a.version - 1] == a.call && ReplyTo(s.calls, a.version - 1) == a.outcome.value
  {
    hide Step, After, Apply, Run, KindOf;
    KindsAre(a.call.op);
    RowIsAlwaysPast(events[..i]);
    RowIsAlwaysPast(events);
    VersionNeverGoesBack(events, i);
    var was, s := Run(events[..i]), Run(events);
    assert AckFits(was, a);
    assert was.calls[..a.version - 1] == Stored(was)[..a.version - 1] == Stored(s)[..a.version - 1];
    assert Stored(s)[..a.version - 1] == s.calls[..a.version - 1];
    assert Stored(s)[a.version - 1] == Stored(was)[a.version - 1];
  }

  /** So a secret that was disclosed works after a restart from any later row. */
  lemma DisclosedSecretIsDurable(events: seq<Event>, i: nat, a: Ack)
    requires i <= |events| && a in Run(events[..i]).acks
    requires Promises(a.call.op) && a.outcome.Some? && !a.outcome.value.Failed?
    ensures a.outcome.value.Created? ==>
      a.outcome.value.credential.id in Run(events).row.credentials
      && Run(events).row.credentials[a.outcome.value.credential.id].hash == Digest(a.outcome.value.token)
    ensures a.outcome.value.Admitted? ==> AgentValid(Run(events).row, a.outcome.value.token, a.outcome.value.device)
    ensures a.outcome.value.Enrolled? ==>
      var s := Run(events);
      0 < a.version <= s.rowVersion <= |s.calls|
      && OpensAt(s.calls, a.version - 1, a.outcome.value.token, a.outcome.value.enrollment)
  {
    hide Step, After, Apply, Run, AgentValid;
    AcknowledgedIsDurable(events, i, a);
    var s, k := Run(events), a.version - 1;
    var stored := s.calls[..s.rowVersion];
    assert stored[..k] == s.calls[..k] && stored[..|stored|] == stored && stored[k] == a.call;
    if a.outcome.value.Admitted? { MintedStaysValid(stored, k, |stored|); }
    if a.outcome.value.Created? {
      AfterNext(stored, k);
      CreatedIsStored(After(stored[..k]), a.call);
      CredentialsStay(stored, k + 1, |stored|, a.outcome.value.credential.id);
    }
  }

  lemma CreatedIsStored(db: Db, c: Call)
    requires Apply(db, c).1.Created?
    ensures
      var r := Apply(db, c).1;
      r.credential.id in Apply(db, c).0.credentials
      && Apply(db, c).0.credentials[r.credential.id].hash == Digest(r.token)
  {
    hide Trim, CredentialRefused, DeviceIdRefused, CanExchange, Active, PendingTasks;
  }

  /** An acknowledged revocation of a deployment credential is in every later row. */
  lemma RevocationIsDurable(events: seq<Event>, i: nat, a: Ack)
    requires i <= |events| && a in Run(events[..i]).acks && a.call.op.DoRevokeCredential?
    requires a.outcome.Some? && !a.outcome.value.Failed?
    ensures a.call.op.id in Run(events).row.credentials && Run(events).row.credentials[a.call.op.id].revokedAt.Some?
  {
    hide Step, After, Apply, Run;
    AcknowledgedIsDurable(events, i, a);
    var s, k := Run(events), a.version - 1;
    var stored := s.calls[..s.rowVersion];
    assert stored[..k] == s.calls[..k] && stored[..|stored|] == stored && stored[k] == a.call;
    AfterNext(stored, k);
    RevokedIsStored(After(stored[..k]), a.call);
    CredentialsStay(stored, k + 1, |stored|, a.call.op.id);
  }

  lemma RevokedIsStored(db: Db, c: Call)
    requires c.op.DoRevokeCredential? && !Apply(db, c).1.Failed?
    ensures c.op.id in Apply(db, c).0.credentials && Apply(db, c).0.credentials[c.op.id].revokedAt.Some?
  {
  }

  /** A call that neither revokes a token for a shorter time than until some instant nor cleans up after it. */
  predicate LeavesRevoked(c: Call, digest: nat, now: Time) {
    c.now <= now && (c.op.DoRevokeUserToken? && c.op.digest == digest ==> now < c.op.expires)
  }

  lemma RevokedTokenStep(db: Db, c: Call, digest: nat, now: Time)
    requires TokenRevoked(db, digest, now) && LeavesRevoked(c, digest, now)
    ensures TokenRevoked(Apply(db, c).0, digest, now)
  {
    if c.op.DoClean? {
      hide Recent, ExpireTask;
    } else {
      OthersKeepRevoked(db, c);
    }
  }

  lemma CredentialCallsKeepRevoked(db: Db, c: Call)
    requires c.op.DoCreateCredential? || c.op.DoRevokeCredential? || c.op.DoIssueEnrollment?
    ensures Apply(db, c).0.revoked == db.revoked
  {
    hide DeviceIdRefused, CredentialRefused, Trim, Active, Earlier;
  }

  lemma TaskCallsKeepRevoked(db: Db, c: Call)
    requires c.op.DoCreateTask? || c.op.DoClaim? || c.op.DoSetStatus? || c.op.DoMarkLeasedUnknown?
    ensures Apply(db, c).0.revoked == db.revoked
  {
    hide Abandoned, PastExpiry, QueuedFor, WithStatus;
  }

  lemma OthersKeepRevoked(db: Db, c: Call)
    requires !c.op.DoClean?
    ensures Apply(db, c).0.revoked ==
      if c.op.DoRevokeUserToken? then db.revoked[c.op.digest := c.op.expires] else db.revoked
  {
    if c.op.DoCreateCredential? || c.op.DoRevokeCredential? || c.op.DoIssueEnrollment? {
      hide Apply;
      CredentialCallsKeepRevoked(db, c);
    } else if c.op.DoCreateTask? || c.op.DoClaim? || c.op.DoSetStatus? || c.op.DoMarkLeasedUnknown? {
      hide Apply;
      TaskCallsKeepRevoked(db, c);
    } else {
      hide CreateCredential, RevokeCredential, IssueEnrollment, CreateTask, ClaimTask, SetTaskStatus, MarkLeasedUnknown;
      hide CanExchange, PendingTasks;
    }
  }

  lemma {:induction false} RevokedTokenStays(calls: seq<Call>, i: nat, j: nat, digest: nat, now: Time)
    requires i <= j <= |calls| && TokenRevoked(After(calls[..i]), digest, now)
    requires forall k | i <= k < j :: LeavesRevoked(calls[k], digest, now)
    ensures TokenRevoked(After(calls[..j]), digest, now)
    decreases j
  {
    hide Apply, TokenRevoked, LeavesRevoked;
    if i < j {
      RevokedTokenStays(calls, i, j - 1, digest, now);
      AfterNext(calls, j - 1);
      RevokedTokenStep(After(calls[..j - 1]), calls[j - 1], digest, now);
    }
  }

  /**
   * An acknowledged revocation of a user token is in force in every later row until it expires, as long as the row's
   * calls were made by then and none of them revoked the same token for a shorter time.
   */
  lemma TokenRevocationIsDurable(events: seq<Event>, i: nat, a: Ack, now: Time)
    requires i <= |events| && a in Run(events[..i]).acks && a.call.op.DoRevokeUserToken?
    requires a.outcome.Some? && !a.outcome.value.Failed? && now < a.call.op.expires
    requires
      var s := Run(events);
      forall k | a.version <= k < s.rowVersion && k < |s.calls| :: LeavesRevoked(s.calls[k], a.call.op.digest, now)
    ensures TokenRevoked(Run(events).row, a.call.op.digest, now)
  {
    hide Step, After, Apply, Run, TokenRevoked, LeavesRevoked;
    AcknowledgedIsDurable(events, i, a);
    var s, k := Run(events), a.version - 1;
    var stored := s.calls[..s.rowVersion];
    assert stored[..k] == s.calls[..k] && stored[..|stored|] == stored && stored[k] == a.call;
    AfterNext(stored, k);
    RevokingRevokes(After(stored[..k]), a.call, now);
    RevokedTokenStays(stored, k + 1, |stored|, a.call.op.digest, now);
  }

  lemma RevokingRevokes(db: Db, c: Call, now: Time)
    requires c.op.DoRevokeUserToken? && now < c.op.expires
    ensures TokenRevoked(Apply(db, c).0, c.op.digest, now)
  {
  }

  // ---------------------------------------------------------------- which operations promise durability

  /** One request from start to end, with nothing in between. */
  function Request(r: nat, call: Call, result: WriteResult): seq<Event> {
    [Begin(r, call), Mutate(r), Lock(r), Snapshot(r), Write(r, result), Unlock(r)]
  }

  /** A request may start at once: it is idle, nobody holds the lock, and the store is healthy or need not be. */
  predicate CanRun(s: System, r: nat, call: Call) {
    PhaseOf(s, r).Idle? && s.holder.None? && (NeedsHealth(call.op) ==> s.healthy)
    && !OnlyReads(call.op) && !call.op.DoSkip? && !Apply(s.memory, call).1.Failed?
  }

  /** A success that the request answers is in the row. */
  predicate KeepsItsWord(s: System) {
    s.acks != [] && (s.acks[|s.acks| - 1].outcome.Some? ==> s.acks[|s.acks| - 1].version <= s.rowVersion)
  }

  lemma RunOneMore(events: seq<Event>, e: Event)
    ensures Run(events + [e]) == Step(Run(events), e)
  {
    hide Step;
    assert (events + [e])[..|events|] == events;
  }

  lemma RunSixMore(events: seq<Event>, es: seq<Event>)
    requires |es| == 6
    ensures
      var s := Run(events);
      Run(events + es) == Step(Step(Step(Step(Step(Step(s, es[0]), es[1]), es[2]), es[3]), es[4]), es[5])
  {
    hide Step, Run;
    RunOneMore(events, es[0]);
    RunOneMore(events + [es[0]], es[1]);
    RunOneMore(events + [es[0]] + [es[1]], es[2]);
    RunOneMore(events + [es[0]] + [es[1]] + [es[2]], es[3]);
    RunOneMore(events + [es[0]] + [es[1]] + [es[2]] + [es[3]], es[4]);
    RunOneMore(events + [es[0]] + [es[1]] + [es[2]] + [es[3]] + [es[4]], es[5]);
    assert events + es == events + [es[0]] + [es[1]] + [es[2]] + [es[3]] + [es[4]] + [es[5]];
  }

  /** What one undisturbed request comes to. */
  lemma RequestEffect(events: seq<Event>, r: nat, call: Call, result: WriteResult)
    requires CanRun(Run(events), r, call)
    ensures
      var s, t := Run(events), Run(events + Request(r, call, result));
      var outcome := if Promises(call.op) && !result.Written? then None else Some(Apply(s.memory, call).1);
      && t.acks == s.acks + [Ack(call, |s.calls| + 1, outcome)] && t.healthy == result.Written?
      && PhaseOf(t, r).Idle? && t.holder.None?
      && t.memory == Apply(s.memory, call).0 && t.row == (if result.Refused? then s.row else t.memory)
      && t.rowVersion == (if result.Refused? then s.rowVersion else |s.calls| + 1)
  {
    hide Apply, KindOf, ChecksHealth, Promises, OnlyReads, NeedsHealth, Run;
    KindsAre(call.op);
    var s := Run(events);
    RunSixMore(events, Request(r, call, result));
    var s1 := Step(s, Begin(r, call));
    assert s1 == Become(s, r, Cleared(call));
    var s2 := Step(s1, Mutate(r));
    var reply := Apply(s.memory, call).1;
    assert PhaseOf(s2, r) == Changed(call, reply, |s.calls| + 1) && s2.holder.None? && |s2.calls| == |s.calls| + 1;
    assert s2.acks == s.acks && s2.rowVersion == s.rowVersion && s2.row == s.row;
    assert s2.memory == Apply(s.memory, call).0;
    WriteEffect(s2, r, call, reply, |s.calls| + 1, result);
  }

  /** The second half of an undisturbed request. */
  lemma WriteEffect(s: System, r: nat, call: Call, reply: Reply, version: nat, result: WriteResult)
    requires PhaseOf(s, r) == Changed(call, reply, version) && s.holder.None?
    ensures
      var t := Step(Step(Step(Step(s, Lock(r)), Snapshot(r)), Write(r, result)), Unlock(r));
      var outcome := if KindOf(call.op).Strict? && !result.Written? then None else Some(reply);
      && t.acks == s.acks + [Ack(call, version, outcome)] && t.healthy == result.Written?
      && PhaseOf(t, r).Idle? && t.holder.None?
      && t.memory == s.memory && t.row == (if result.Refused? then s.row else s.memory)
      && t.rowVersion == (if result.Refused? then s.rowVersion else |s.calls|)
  {
    hide KindOf;
    var s3 := Step(s, Lock(r));
    assert PhaseOf(s3, r) == Holding(call, reply, version);
    var s4 := Step(s3, Snapshot(r));
    assert PhaseOf(s4, r) == Snapped(call, reply, version, s.memory, |s.calls|);
    var s5 := Step(s4, Write(r, result));
    assert PhaseOf(s5, r) == Wrote(call, reply, version, result.Written?) && s5.acks == s.acks;
  }

  /**
   * From every state that is reached, for every operation that writes: whatever becomes of its write, a success it
   * answers is in the row, if and only if it is one of the five that promise it.
   */
  lemma StrictExactly(events: seq<Event>, r: nat, call: Call)
    requires CanRun(Run(events), r, call)
    ensures (forall result :: KeepsItsWord(Run(events + Request(r, call, result)))) <==> Promises(call.op)
  {
    hide Run, Apply, Promises, CanRun;
    RowIsAlwaysPast(events);
    forall result
      ensures KeepsItsWord(Run(events + Request(r, call, result))) <==> (Promises(call.op) || !result.Refused?)
    {
      RequestEffect(events, r, call, result);
    }
    assert KeepsItsWord(Run(events + Request(r, call, Refused))) <==> Promises(call.op);
  }

  /** So an administrator's enrollment token is returned although its write was refused. */
  lemma LaxTokenMayBeLost(device: DeviceId, ttl: int, now: Time)
    ensures
      var call := Call(DoCreateEnrollment(device, ttl), now);
      var s := Run(Request(0, call, Refused));
      |s.acks| == 1 && s.acks[0].outcome.Some? && s.acks[0].outcome.value.Enrolled? && s.row == EMPTY
  {
    var call := Call(DoCreateEnrollment(device, ttl), now);
    hide Step;
    RequestEffect([], 0, call, Refused);
    assert [] + Request(0, call, Refused) == Request(0, call, Refused);
  }

  // ---------------------------------------------------------------- health

  /** A request writes the row, whatever comes of it. */
  predicate WritesAt(events: seq<Event>, i: nat) {
    i < |events| && events[i].Write? && PhaseOf(Run(events[..i]), events[i].r).Snapped?
  }

  /** A new process, or a write that the database confirms. */
  predicate HealsAt(events: seq<Event>, l: nat) {
    l < |events| && (events[l].Restart? || (WritesAt(events, l) && events[l].result.Written?))
  }

  predicate FailsAt(events: seq<Event>, i: nat) {
    WritesAt(events, i) && !events[i].result.Written?
  }

  predicate Healed(events: seq<Event>, i: nat, n: nat) {
    exists l: nat :: i < l < n && HealsAt(events, l)
  }

  /** Every write that failed was followed by one that worked, or by a new process. */
  predicate AllHealed(events: seq<Event>, n: nat) {
    forall i: nat :: i < n && FailsAt(events, i) ==> Healed(events, i, n)
  }

  /** In every interleaving the store is healthy exactly if that is so. */
  lemma {:induction false} HealthExactly(events: seq<Event>, n: nat)
    requires n <= |events|
    ensures Run(events[..n]).healthy <==> AllHealed(events, n)
    decreases n
  {
    hide Step, Durable, AllHealed, FailsAt, HealsAt;
    if n == 0 {
      NothingFailed(events);
    } else {
      var last := n - 1;
      HealthExactly(events, last);
      assert events[..n][..last] == events[..last];
      RowIsAlwaysPast(events[..last]);
      HealthStep(events, last);
      AllHealedNext(events, last);
    }
  }

  lemma NothingFailed(events: seq<Event>)
    ensures Run(events[..0]).healthy && AllHealed(events, 0)
  {
  }

  lemma AllHealedNext(events: seq<Event>, n: nat)
    ensures AllHealed(events, n + 1) <==> HealsAt(events, n) || (AllHealed(events, n) && !FailsAt(events, n))
  {
    NotBoth(events, n);
    hide FailsAt, HealsAt;
    forall i: nat | i <= n ensures Healed(events, i, n + 1) <==> (i < n && HealsAt(events, n)) || Healed(events, i, n) {
    }
  }

  lemma NotBoth(events: seq<Event>, i: nat)
    ensures !(FailsAt(events, i) && HealsAt(events, i))
  {
  }

  lemma HealthStep(events: seq<Event>, n: nat)
    requires n < |events| && Durable(Run(events[..n]))
    ensures Step(Run(events[..n]), events[n]).healthy ==
      (HealsAt(events, n) || (Run(events[..n]).healthy && !FailsAt(events, n)))
  {
    hide Run, Apply, KindOf, ChecksHealth, After;
  }

  /**
   * After a write that failed, an operation that hands out a credential is refused at once, and changes nothing, until
   * a write works or a new process starts. Everything else may go on.
   */
  lemma RefusedExactly(events: seq<Event>, r: nat, call: Call)
    requires PhaseOf(Run(events), r).Idle? && !call.op.DoSkip?
    ensures
      var s, t := Run(events), Run(events + [Begin(r, call)]);
      if NeedsHealth(call.op)
        && exists i: nat :: FailsAt(events, i) && !Healed(events, i, |events|) then
        t == s.(acks := s.acks + [Ack(call, 0, None)])
      else t == s.(requests := s.requests[r := Cleared(call)])
  {
    hide Run, FailsAt, HealsAt, ChecksHealth, NeedsHealth, Apply;
    KindsAre(call.op);
    assert events[..|events|] == events;
    HealthExactly(events, |events|);
    FailsWithin(events);
    assert AllHealed(events, |events|) <==> !exists i: nat :: FailsAt(events, i) && !Healed(events, i, |events|);
    RunOneMore(events, Begin(r, call));
  }

  lemma FailsWithin(events: seq<Event>)
    ensures forall i: nat :: FailsAt(events, i) || HealsAt(events, i) ==> i < |events|
  {
  }
}
