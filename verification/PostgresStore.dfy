/** The durable store: a store in memory, a row in the database, a lock around writing it, and a health mark. */
module PostgresStore {
  import opened Wrappers
  import opened StoreModel
  import opened Durability
  import M = MemoryStore

  class PostgresStore {
    const inner: M.MemoryStore
    var row: Db
    var persistMu: bool
    var healthy: bool

    // The calls the memory has seen, where every request is, what was answered, and who holds the lock.
    ghost var calls: seq<Call>
    ghost var rowVersion: nat
    ghost var requests: map<nat, Phase>
    ghost var acks: seq<Ack>
    ghost var holder: Option<nat>

    ghost function State(): System
      reads this, inner
    {
      System(calls, inner.State(), row, rowVersion, holder, healthy, requests, acks)
    }

    ghost predicate Valid()
      reads this, inner
    {
      persistMu == holder.Some?
    }

    constructor ()
      ensures Valid() && State() == INITIAL && fresh(inner)
    {
      inner := new M.MemoryStore();
      row, persistMu, healthy := EMPTY, false, true;
      calls, rowVersion, requests, acks, holder := [], 0, map[], [], None;
    }

    /**
     * A new process: an empty store in memory, then everything that the row holds. The calls of the process before it
     * are given, and how many random values it drew, which are not drawn again.
     */
    constructor Load(ghost was: System, row: Db, drawn: nat, ghost now: Time)
      requires was.rowVersion <= |was.calls| && was.row == row && was.memory.drawn == drawn
      ensures Valid() && State() == Step(was, Restart(now)) && fresh(inner)
    {
      inner := new M.MemoryStore();
      this.row, persistMu, healthy := row, false, true;
      calls := was.calls[..was.rowVersion] + [Call(DoSkip(was.memory.drawn), now)];
      rowVersion, requests, acks, holder := was.rowVersion, map[], was.acks, None;
      new;
      inner.deploymentCredentials, inner.enrollments := row.credentials, row.enrollments;
      inner.agentCredentials, inner.tasks := row.agents, row.tasks;
      inner.audits, inner.revokedUserTokens := row.audits, row.revoked;
      inner.drawn := if row.drawn < drawn then drawn else row.drawn;
    }

    ghost function At(r: nat): Phase
      reads this
    {
      if r in requests then requests[r] else Idle
    }

    /** The head of an operation: some refuse to start while the store is unhealthy. */
    method BeginRequest(ghost r: nat, call: Call) returns (refused: bool)
      requires Valid() && At(r).Idle? && !call.op.DoSkip?
      modifies this
      ensures Valid() && State() == Step(old(State()), Begin(r, call))
      ensures refused <==> ChecksHealth(call.op) && !healthy
    {
      refused := ChecksHealth(call.op) && !healthy;
      if refused {
        acks := acks + [Ack(call, 0, None)];
      } else {
        requests := requests[r := Cleared(call)];
      }
    }

    /** Calls the store in memory. */
    method CallInner(call: Call) returns (reply: Reply)
      requires !call.op.DoSkip?
      modifies inner
      ensures (inner.State(), reply) == Apply(old(inner.State()), call)
    {
      hide CreateCredential, RevokeCredential, IssueEnrollment, CreateEnrollment, ExchangeEnrollment, CreateTask;
      hide PendingTasks, ClaimTask, SetTaskStatus, MarkLeasedUnknown, Clean, Audited, AgentValid, TokenRevoked;
      reply := Done;
      match call.op
      case DoCreateCredential(name, actor, ttl) =>
        reply := inner.CreateDeploymentCredential(name, actor, ttl, call.now);
      case DoRevokeCredential(id, actor) => reply := inner.RevokeDeploymentCredential(id, actor, call.now);
      case DoIssueEnrollment(token, device, ttl) =>
        reply := inner.IssueDeploymentEnrollment(token, device, ttl, call.now);
      case DoCreateEnrollment(device, ttl) => reply := inner.CreateEnrollment(device, ttl, call.now);
      case DoExchange(token, device) => reply := inner.ExchangeEnrollment(token, device, call.now);
      case DoValidateAgent(token, device) =>
        var valid := inner.ValidateAgentToken(token, device);
        reply := Answer(valid);
      case DoRevokeUserToken(digest, expires) => inner.RevokeUserToken(digest, expires);
      case DoUserTokenRevoked(digest) =>
        var revoked := inner.UserTokenRevoked(digest, call.now);
        reply := Answer(revoked);
      case DoCreateTask(task) => reply := inner.CreateTask(task, call.now);
      case DoPendingTasks(device) =>
        var ids := inner.PendingTasks(device, call.now);
        var found := set id | id in ids;
        assert found == PendingTasks(inner.State(), device, call.now);
        reply := Pending(found);
      case DoClaim(id, device) => reply := inner.ClaimTask(id, device, call.now);
      case DoSetStatus(id, device, status, result) =>
        reply := inner.SetTaskStatus(id, device, status, result, call.now);
      case DoMarkLeasedUnknown(device) => inner.MarkLeasedUnknown(device, call.now);
      case DoAudit(who, action, target) => inner.Audit(who, action, target, call.now);
      case DoClean(before) => inner.Clean(before, call.now);
    }

    /** The change in memory; an error, or nothing to write, ends the request here. */
    method MutateInner(ghost r: nat, call: Call) returns (reply: Reply, persists: bool)
      requires Valid() && At(r) == Cleared(call) && !call.op.DoSkip?
      modifies this, inner
      ensures Valid() && State() == Step(old(State()), Mutate(r))
      ensures persists ==> At(r) == Changed(call, reply, |calls|)
      ensures !persists ==> acks == old(acks) + [Ack(call, |calls|, Some(reply))]
    {
      hide Apply;
      reply := CallInner(call);
      calls := calls + [call];
      persists := !KindOf(call.op).Read? && !reply.Failed?;
      if persists {
        requests := requests[r := Changed(call, reply, |calls|)];
      } else {
        requests, acks := requests[r := Idle], acks + [Ack(call, |calls|, Some(reply))];
      }
    }

    /** Takes the lock if it is free. */
    method TryLock(ghost r: nat) returns (taken: bool)
      requires Valid() && At(r).Changed?
      modifies this
      ensures Valid() && State() == Step(old(State()), Lock(r)) && taken == !old(persistMu)
    {
      taken := !persistMu;
      if taken {
        persistMu := true;
        holder := Some(r);
        ghost var p := At(r);
        requests := requests[r := Holding(p.call, p.reply, p.version)];
      }
    }

    /** The state document: everything in memory at one instant. */
    method SnapshotJSON(ghost r: nat) returns (raw: Db)
      requires Valid() && At(r).Holding?
      modifies this
      ensures Valid() && State() == Step(old(State()), Snapshot(r)) && At(r).Snapped? && At(r).image == raw
    {
      raw := Db(inner.deploymentCredentials, inner.enrollments, inner.agentCredentials, inner.tasks,
        inner.revokedUserTokens, inner.audits, inner.drawn);
      ghost var p := At(r);
      requests := requests[r := Snapped(p.call, p.reply, p.version, raw, |calls|)];
    }

    /** Writes the document into the row; the database may refuse, or write and lose its answer. */
    method WriteRow(ghost r: nat, raw: Db, result: WriteResult) returns (ok: bool)
      requires Valid() && At(r).Snapped? && At(r).image == raw
      modifies this
      ensures Valid() && State() == Step(old(State()), Write(r, result)) && ok == healthy == result.Written?
    {
      ghost var p := At(r);
      if !result.Refused? {
        row := raw;
        rowVersion := p.imageVersion;
      }
      ok := result.Written?;
      healthy := ok;
      requests := requests[r := Wrote(p.call, p.reply, p.version, ok)];
    }

    /** Frees the lock and answers the caller: strict operations pass an error on, the others drop it. */
    method UnlockAndAnswer(ghost r: nat, call: Call, reply: Reply, ok: bool) returns (outcome: Option<Reply>)
      requires Valid() && At(r).Wrote? && At(r).call == call && At(r).reply == reply && At(r).ok == ok
      modifies this
      ensures Valid() && State() == Step(old(State()), Unlock(r))
      ensures acks == old(acks) + [Ack(call, old(At(r)).version, outcome)]
    {
      persistMu := false;
      holder := None;
      outcome := Some(reply);
      if KindOf(call.op).Strict? && !ok {
        outcome := None;
      }
      acks := acks + [Ack(call, At(r).version, outcome)];
      requests := requests[r := Idle];
    }
  }
}
