/** What a restart of the durable store does to tasks: which claims can be granted, and dispatched, again. */
module Restarts {
  import opened Wrappers
  import opened StoreModel
  import opened EnrollmentSafety
  import opened TaskSafety
  import opened Durability

  /** No call puts a device back into a queue; the server makes none. */
  predicate NoneRequeued(calls: seq<Call>) {
    forall k | 0 <= k < |calls| :: !(calls[k].op.DoSetStatus? && calls[k].op.status == Queued)
  }

  lemma CallForward(db: Db, c: Call)
    requires Numbered(db) && !(c.op.DoSetStatus? && c.op.status == Queued)
    ensures Forward(db, Apply(db, c).0)
  {
    hide Forward, ClaimTask, SetTaskStatus;
    match c.op
    case DoClaim(id, device) => ClaimForward(db, id, device, c.now);
    case DoSetStatus(id, device, status, result) => StatusForward(db, id, device, status, result, c.now);
    case _ =>
      hide Apply;
      DirectForward(db, c.op, c.now);
  }

  lemma {:induction false} CallsForward(calls: seq<Call>, i: nat, j: nat)
    requires i <= j <= |calls| && NoneRequeued(calls)
    ensures Forward(After(calls[..i]), After(calls[..j]))
    decreases j
  {
    hide Apply, Forward;
    if i < j {
      CallsForward(calls, i, j - 1);
      AfterNumbered(calls[..j - 1]);
      AfterNext(calls, j - 1);
      CallForward(After(calls[..j - 1]), calls[j - 1]);
      ForwardChain(After(calls[..i]), After(calls[..j - 1]), After(calls[..j]));
    } else {
      SameTasksForward(After(calls[..i]), After(calls[..i]));
    }
  }

  predicate Waiting(db: Db, id: Id, device: DeviceId) {
    id in db.tasks && QueuedFor(db.tasks[id], device)
  }

  /** A claim that was granted found its device waiting, and took it out of the queue. */
  lemma GrantedClaim(calls: seq<Call>, k: nat)
    requires k < |calls| && calls[k].op.DoClaim? && ReplyTo(calls, k).Granted?
    ensures Waiting(After(calls[..k]), calls[k].op.id, calls[k].op.device)
    ensures Left(After(calls[..k + 1]), calls[k].op.id, calls[k].op.device)
  {
    hide Forward;
    AfterNext(calls, k);
    ClaimForward(After(calls[..k]), calls[k].op.id, calls[k].op.device, calls[k].now);
  }

  lemma LeftStays(db: Db, r: Db, id: Id, device: DeviceId)
    requires Forward(db, r) && Left(db, id, device)
    ensures Left(r, id, device)
  {
  }

  lemma EitherWaitsOrLeft(db: Db, id: Id, device: DeviceId)
    ensures HasRecord(db, id, device) <==> Waiting(db, id, device) || Left(db, id, device)
    ensures !(Waiting(db, id, device) && Left(db, id, device))
  {
  }

  /**
   * From every state that is reached, for every claim that was granted: after a restart its device waits for the task
   * again if and only if the row has the task, and is from before the claim.
   */
  lemma ClaimedAgainExactly(events: seq<Event>, k: nat, now: Time)
    requires
      var s := Run(events);
      k < |s.calls| && s.calls[k].op.DoClaim? && ReplyTo(s.calls, k).Granted? && NoneRequeued(s.calls)
    ensures
      var s, id, device := Run(events), Run(events).calls[k].op.id, Run(events).calls[k].op.device;
      Waiting(Run(events + [Restart(now)]).memory, id, device) <==> HasRecord(s.row, id, device) && s.rowVersion <= k
  {
    hide Apply, After, Run, Forward, Waiting, Left, HasRecord;
    var s := Run(events);
    var id, device := s.calls[k].op.id, s.calls[k].op.device;
    RowIsAlwaysPast(events);
    RunOneMore(events, Restart(now));
    RestartedTasks(s, now);
    SameTasksWait(s.row, Restarts(s, now).memory, id, device);
    GrantedClaim(s.calls, k);
    EitherWaitsOrLeft(s.row, id, device);
    if s.rowVersion <= k {
      CallsForward(s.calls, s.rowVersion, k);
      EitherWaitsOrLeft(After(s.calls[..k]), id, device);
      if Left(s.row, id, device) { LeftStays(s.row, After(s.calls[..k]), id, device); }
    } else {
      CallsForward(s.calls, k + 1, s.rowVersion);
      LeftStays(After(s.calls[..k + 1]), s.row, id, device);
    }
  }

  lemma RestartedTasks(s: System, now: Time)
    requires s.rowVersion <= |s.calls|
    ensures Restarts(s, now).memory.tasks == s.row.tasks
  {
  }

  lemma SameTasksWait(db: Db, r: Db, id: Id, device: DeviceId)
    requires r.tasks == db.tasks
    ensures Waiting(r, id, device) <==> Waiting(db, id, device)
  {
  }

  /** What is waiting is granted to the next claim that is in time. */
  lemma WaitingIsGranted(db: Db, id: Id, device: DeviceId, now: Time)
    requires Waiting(db, id, device) && !PastExpiry(db.tasks[id], now)
    ensures Apply(db, Call(DoClaim(id, device), now)).1.Granted?
  {
  }

  // ---------------------------------------------------------------- a claim that is granted twice

  /** A task is created, claimed while the database refuses the write, and claimed again by the next process. */
  function ClaimedTwice(task: Task, device: DeviceId, now: Time): seq<Event> {
    var claim := Call(DoClaim(0, device), now);
    Request(0, Call(DoCreateTask(task), now), Written) + Request(0, claim, Refused) + [Restart(now)]
    + Request(0, claim, Written)
  }

  /** Both claims are answered with the task. */
  lemma ClaimIsGrantedTwice(task: Task, device: DeviceId, now: Time)
    requires task.kind != "" && device in task.devices && (task.expiresAt == ZERO_TIME || now <= task.expiresAt)
    ensures
      var s := Run(ClaimedTwice(task, device, now));
      && |s.acks| == 3 && s.acks[1].call == s.acks[2].call == Call(DoClaim(0, device), now)
      && s.acks[1].outcome.Some? && s.acks[1].outcome.value.Granted?
      && s.acks[2].outcome.Some? && s.acks[2].outcome.value.Granted?
  {
    hide Step, Run, Apply, Waiting, PastExpiry, CanRun, Request;
    var claim := Call(DoClaim(0, device), now);
    var create := Call(DoCreateTask(task), now);
    var first := Request(0, create, Written);
    var second := first + Request(0, claim, Refused);
    CreatedRun(task, device, now);
    ClaimRun(first, 0, device, now, Refused);
    RestartRun(second, 0, device, now);
    ClaimRun(second + [Restart(now)], 0, device, now, Written);
    assert second + [Restart(now)] + Request(0, claim, Written) == ClaimedTwice(task, device, now);
  }

  /** Nobody holds the lock, request 0 is idle, the row is not newer than some count, and the task waits in time. */
  ghost predicate Resting(s: System, id: Id, device: DeviceId, now: Time) {
    && PhaseOf(s, 0).Idle? && s.holder.None?
    && Waiting(s.memory, id, device) && !PastExpiry(s.memory.tasks[id], now)
  }

  lemma CreatedRun(task: Task, device: DeviceId, now: Time)
    requires task.kind != "" && device in task.devices && (task.expiresAt == ZERO_TIME || now <= task.expiresAt)
    ensures
      var s := Run(Request(0, Call(DoCreateTask(task), now), Written));
      Resting(s, 0, device, now) && s.row == s.memory && |s.acks| == 1
  {
    hide Step, Apply, Run;
    var create := Call(DoCreateTask(task), now);
    CreateEffect(task, device, now);
    EmptyRun();
    RequestEffect([], 0, create, Written);
    assert [] + Request(0, create, Written) == Request(0, create, Written);
  }

  lemma EmptyRun()
    ensures Run([]) == INITIAL
  {
  }

  lemma CreateEffect(task: Task, device: DeviceId, now: Time)
    requires task.kind != "" && device in task.devices && (task.expiresAt == ZERO_TIME || now <= task.expiresAt)
    ensures
      var (db, reply) := Apply(EMPTY, Call(DoCreateTask(task), now));
      Waiting(db, 0, device) && !PastExpiry(db.tasks[0], now) && !reply.Failed?
  {
    assert task.devices.Keys != {};
  }

  lemma ClaimRun(events: seq<Event>, id: Id, device: DeviceId, now: Time, result: WriteResult)
    requires Resting(Run(events), id, device, now)
    ensures
      var s, t := Run(events), Run(events + Request(0, Call(DoClaim(id, device), now), result));
      && PhaseOf(t, 0).Idle? && t.holder.None? && (result.Refused? ==> t.row == s.row)
      && exists task :: t.acks == s.acks + [Ack(Call(DoClaim(id, device), now), |s.calls| + 1, Some(Granted(id, task)))]
  {
    hide Run, Apply, Waiting, PastExpiry;
    var claim := Call(DoClaim(id, device), now);
    var s := Run(events);
    WaitingIsGranted(s.memory, id, device, now);
    ClaimAnswers(s.memory, id, device, now);
    RequestEffect(events, 0, claim, result);
  }

  lemma ClaimAnswers(db: Db, id: Id, device: DeviceId, now: Time)
    requires Apply(db, Call(DoClaim(id, device), now)).1.Granted?
    ensures Apply(db, Call(DoClaim(id, device), now)).1.id == id
  {
  }

  /** A restart makes the row's waiting tasks wait again. */
  lemma RestartRun(events: seq<Event>, id: Id, device: DeviceId, now: Time)
    requires Waiting(Run(events).row, id, device) && !PastExpiry(Run(events).row.tasks[id], now)
    ensures
      var t := Run(events + [Restart(now)]);
      Resting(t, id, device, now) && t.acks == Run(events).acks
  {
    hide Run, PastExpiry;
    RowIsAlwaysPast(events);
    RunOneMore(events, Restart(now));
    RestartedTasks(Run(events), now);
  }
}
