/** Which tasks can be claimed, told from the calls made so far and their replies. */
module TaskHistory {
  import opened Wrappers
  import opened StoreModel
  import S = EnrollmentSafety

  /** A call made a task for a device. */
  predicate Makes(calls: seq<Call>, i: nat, id: Id, device: DeviceId) {
    i < |calls| && calls[i].op.DoCreateTask? && ReplyTo(calls, i).Granted? && ReplyTo(calls, i).id == id
    && device in calls[i].op.task.devices
  }

  /** A device has yet to claim a task: it was made, or put back, and since then neither claimed nor reported on. */
  predicate Waiting(calls: seq<Call>, n: nat, id: Id, device: DeviceId)
    requires n <= |calls|
  {
    n > 0 &&
    var c, granted := calls[n - 1].op, ReplyTo(calls, n - 1).Granted?;
    if Makes(calls, n - 1, id, device) then true
    else if c.DoSetStatus? && c.id == id && c.device == device && granted then c.status.Queued?
    else Waiting(calls, n - 1, id, device) && !(c.DoClaim? && c.id == id && c.device == device && granted)
  }

  predicate Has(db: Db, id: Id, device: DeviceId) {
    id in db.tasks && device in db.tasks[id].devices
  }

  predicate Queues(db: Db, id: Id, device: DeviceId) {
    id in db.tasks && QueuedFor(db.tasks[id], device)
  }

  // ---------------------------------------------------------------- one call

  lemma CreatingTells(db: Db, task: Task, now: Time, id: Id, device: DeviceId)
    requires S.Numbered(db)
    ensures
      var (r, reply) := CreateTask(db, task, now);
      && (reply.Granted? <==> task.kind != "" && task.devices != map[])
      && (reply.Granted? ==> reply.id == db.drawn && db.drawn !in db.tasks)
      && (var made := reply.Granted? && reply.id == id && device in task.devices;
          && (Has(r, id, device) <==> Has(db, id, device) || made) && !(Has(db, id, device) && made)
          && (made ==> Queues(r, id, device) && r.tasks[id].expiresAt == task.expiresAt)
          && (Has(db, id, device) ==>
                r.tasks[id].expiresAt == db.tasks[id].expiresAt && (Queues(r, id, device) <==> Queues(db, id, device))))
  {
  }

  lemma ClaimingTells(db: Db, own: Id, agent: DeviceId, now: Time, id: Id, device: DeviceId)
    ensures
      var (r, reply) := ClaimTask(db, own, agent, now);
      && (Has(r, id, device) <==> Has(db, id, device))
      && (Has(db, id, device) ==>
            r.tasks[id].expiresAt == db.tasks[id].expiresAt
            && (Queues(r, id, device) <==>
                  Queues(db, id, device) && !(own == id && agent == device && reply.Granted?)))
      && (reply.Granted? ==> reply.id == own)
  {
  }

  lemma StatusTells(db: Db, own: Id, agent: DeviceId, status: Status, result: string, now: Time,
                    id: Id, device: DeviceId)
    ensures
      var (r, reply) := SetTaskStatus(db, own, agent, status, result, now);
      && (Has(r, id, device) <==> Has(db, id, device)) && (reply.Granted? <==> Has(db, own, agent))
      && (Has(db, id, device) ==>
            r.tasks[id].expiresAt == db.tasks[id].expiresAt
            && (Queues(r, id, device) <==>
                  if own == id && agent == device then status.Queued? else Queues(db, id, device)))
  {
  }

  lemma AbandoningTells(db: Db, agent: DeviceId, now: Time, id: Id, device: DeviceId)
    ensures
      var r := MarkLeasedUnknown(db, agent, now);
      && (Has(r, id, device) <==> Has(db, id, device)) && (Queues(r, id, device) <==> Queues(db, id, device))
      && (Has(db, id, device) ==> r.tasks[id].expiresAt == db.tasks[id].expiresAt)
  {
  }

  lemma CleaningTells(db: Db, before: Time, now: Time, id: Id, device: DeviceId)
    ensures
      var r := Clean(db, before, now);
      && (Has(r, id, device) <==> Has(db, id, device))
      && (Has(db, id, device) ==>
            r.tasks[id].expiresAt == db.tasks[id].expiresAt
            && (Queues(r, id, device) <==> Queues(db, id, device) && !PastExpiry(db.tasks[id], now)))
  {
    hide Recent;
  }

  /** What a call does to a task of a device. */
  predicate Tells(db: Db, c: Call, r: Db, reply: Reply, id: Id, device: DeviceId) {
    var made := c.op.DoCreateTask? && reply.Granted? && reply.id == id && device in c.op.task.devices;
    && (Has(r, id, device) <==> Has(db, id, device) || made) && !(Has(db, id, device) && made)
    && (made ==> Queues(r, id, device) && r.tasks[id].expiresAt == c.op.task.expiresAt)
    && (Has(db, id, device) ==>
          r.tasks[id].expiresAt == db.tasks[id].expiresAt
          && (Queues(r, id, device) <==>
                match c.op
                case DoSetStatus(own, agent, status, _) =>
                  if own == id && agent == device then status.Queued? else Queues(db, id, device)
                case DoClaim(own, agent) =>
                  Queues(db, id, device) && !(own == id && agent == device && reply.Granted?)
                case DoClean(_) => Queues(db, id, device) && !PastExpiry(db.tasks[id], c.now)
                case _ => Queues(db, id, device)))
    && (c.op.DoSetStatus? ==> (reply.Granted? <==> Has(db, c.op.id, c.op.device)))
  }

  lemma CallTells(db: Db, c: Call, id: Id, device: DeviceId)
    requires S.Numbered(db)
    ensures Tells(db, c, Apply(db, c).0, Apply(db, c).1, id, device)
  {
    hide S.Numbered, CreateTask, ClaimTask, SetTaskStatus, MarkLeasedUnknown, Clean, Has, Queues, PastExpiry;
    match c.op
    case DoCreateTask(task) => CreatingTells(db, task, c.now, id, device);
    case DoClaim(own, agent) => ClaimingTells(db, own, agent, c.now, id, device);
    case DoSetStatus(own, agent, status, result) => StatusTells(db, own, agent, status, result, c.now, id, device);
    case DoMarkLeasedUnknown(agent) => AbandoningTells(db, agent, c.now, id, device);
    case DoClean(before) => CleaningTells(db, before, c.now, id, device);
    case _ => hide Apply; OthersKeepTasks(db, c); SameTasks(db, Apply(db, c).0, id, device);
  }

  lemma SameTasks(db: Db, r: Db, id: Id, device: DeviceId)
    requires r.tasks == db.tasks
    ensures (Has(r, id, device) <==> Has(db, id, device)) && (Queues(r, id, device) <==> Queues(db, id, device))
  {
  }

  lemma OthersKeepTasks(db: Db, c: Call)
    requires !c.op.DoCreateTask? && !c.op.DoClaim? && !c.op.DoSetStatus? && !c.op.DoMarkLeasedUnknown? && !c.op.DoClean?
    ensures Apply(db, c).0.tasks == db.tasks && !Apply(db, c).1.Granted?
  {
    hide CanExchange, CredentialRefused, DeviceIdRefused, Active, Earlier, Trim;
  }

  // ---------------------------------------------------------------- runs

  /** What the store has of a task for a device after some calls. */
  lemma {:induction false} TasksExactly(calls: seq<Call>, n: nat, id: Id, device: DeviceId) returns (i: nat)
    requires n <= |calls| && Has(After(calls[..n]), id, device)
    ensures i < n && Makes(calls, i, id, device)
    ensures After(calls[..n]).tasks[id].expiresAt == calls[i].op.task.expiresAt
    decreases n
  {
    hide Apply, S.Numbered, Queues;
    var db := After(calls[..n - 1]);
    AfterNext(calls, n - 1);
    S.AfterNumbered(calls[..n - 1]);
    CallTells(db, calls[n - 1], id, device);
    if Has(db, id, device) {
      i := TasksExactly(calls, n - 1, id, device);
    } else {
      i := n - 1;
    }
  }

  lemma {:induction false} MadeStays(calls: seq<Call>, i: nat, n: nat, id: Id, device: DeviceId)
    requires i < n <= |calls| && Makes(calls, i, id, device)
    ensures Has(After(calls[..n]), id, device)
    decreases n
  {
    hide Apply, S.Numbered, Queues;
    AfterNext(calls, n - 1);
    S.AfterNumbered(calls[..n - 1]);
    CallTells(After(calls[..n - 1]), calls[n - 1], id, device);
    if i < n - 1 { MadeStays(calls, i, n - 1, id, device); }
  }

  lemma MadeOnce(calls: seq<Call>, i: nat, j: nat, id: Id, device: DeviceId)
    requires Makes(calls, i, id, device) && Makes(calls, j, id, device)
    ensures i == j
  {
    hide Apply, S.Numbered, Queues;
    var first, last := if i < j then i else j, if i < j then j else i;
    if first < last {
      MadeStays(calls, first, last, id, device);
      S.AfterNumbered(calls[..last]);
      CallTells(After(calls[..last]), calls[last], id, device);
    }
  }

  lemma {:induction false} WaitingNeedsTask(calls: seq<Call>, n: nat, id: Id, device: DeviceId)
    requires n <= |calls| && Waiting(calls, n, id, device)
    ensures Has(After(calls[..n]), id, device)
    decreases n
  {
    hide Apply, S.Numbered, Queues;
    AfterNext(calls, n - 1);
    S.AfterNumbered(calls[..n - 1]);
    CallTells(After(calls[..n - 1]), calls[n - 1], id, device);
    if !Makes(calls, n - 1, id, device) && !calls[n - 1].op.DoSetStatus? {
      WaitingNeedsTask(calls, n - 1, id, device);
    } else if Waiting(calls, n - 1, id, device) {
      WaitingNeedsTask(calls, n - 1, id, device);
    }
  }

  /** A device's task is queued exactly while it waits, but for those that were cleaned away after their time. */
  lemma {:induction false} QueuedExactly(calls: seq<Call>, n: nat, j: nat, id: Id, device: DeviceId)
    requires Monotone(calls) && n <= j < |calls|
    ensures
      var db := After(calls[..n]);
      && (Queues(db, id, device) ==> Waiting(calls, n, id, device) && Has(db, id, device))
      && (Waiting(calls, n, id, device) && Has(db, id, device) && !PastExpiry(db.tasks[id], calls[j].now) ==>
            Queues(db, id, device))
    decreases n
  {
    hide Apply, S.Numbered, Queues, Monotone, PastExpiry;
    if n > 0 {
      QueuedExactly(calls, n - 1, j, id, device);
      var db, c := After(calls[..n - 1]), calls[n - 1];
      AfterNext(calls, n - 1);
      S.AfterNumbered(calls[..n - 1]);
      CallTells(db, c, id, device);
      ClockRises(calls, n - 1, j);
      QueuesHas(db, id, device);
      QueuesHas(After(calls[..n]), id, device);
      if Has(db, id, device) {
        LaterIsPast(db.tasks[id], After(calls[..n]).tasks[id], c.now, calls[j].now);
      } else if Waiting(calls, n - 1, id, device) {
        WaitingNeedsTask(calls, n - 1, id, device);
      }
    } else {
      QueuesHas(After(calls[..0]), id, device);
    }
  }

  lemma QueuesHas(db: Db, id: Id, device: DeviceId)
    ensures Queues(db, id, device) ==> Has(db, id, device)
  {
  }

  lemma ClockRises(calls: seq<Call>, i: nat, j: nat)
    requires Monotone(calls) && i <= j < |calls|
    ensures calls[i].now <= calls[j].now
  {
  }

  lemma LaterIsPast(t: Task, u: Task, now: Time, later: Time)
    requires t.expiresAt == u.expiresAt && now <= later
    ensures PastExpiry(t, now) ==> PastExpiry(u, later)
    ensures PastExpiry(t, later) <==> PastExpiry(u, later)
  {
  }

  /** A task was made for a device, and its time, if it has one, is not over. */
  predicate InTime(calls: seq<Call>, i: nat, n: nat, id: Id, device: DeviceId, now: Time) {
    i < n && Makes(calls, i, id, device)
    && (calls[i].op.task.expiresAt == ZERO_TIME || now <= calls[i].op.task.expiresAt)
  }

  lemma ClaimableExactly(calls: seq<Call>, j: nat, id: Id, device: DeviceId)
    requires Monotone(calls) && j < |calls|
    ensures
      var db, now := After(calls[..j]), calls[j].now;
      Queues(db, id, device) && !PastExpiry(db.tasks[id], now) <==>
        Waiting(calls, j, id, device) && exists i: nat :: i < j && InTime(calls, i, j, id, device, now)
  {
    hide After, Waiting, Queues, Has, Makes, Monotone;
    var db, now := After(calls[..j]), calls[j].now;
    QueuedExactly(calls, j, j, id, device);
    QueuesHas(db, id, device);
    HasTask(db, id, device);
    if Has(db, id, device) {
      var i := TasksExactly(calls, j, id, device);
      forall l: nat | InTime(calls, l, j, id, device, now) ensures l == i { MadeOnce(calls, i, l, id, device); }
      assert !PastExpiry(db.tasks[id], now) ==> InTime(calls, i, j, id, device, now);
    } else if Waiting(calls, j, id, device) {
      WaitingNeedsTask(calls, j, id, device);
    }
  }

  lemma HasTask(db: Db, id: Id, device: DeviceId)
    ensures Has(db, id, device) ==> id in db.tasks
  {
  }

  /**
   * A claim is granted exactly if the task was made for the device, its time is not over, and the device has neither
   * claimed it nor reported on it since it was made or put back. The device then has it leased.
   */
  lemma ClaimsExactly(calls: seq<Call>, j: nat)
    requires Monotone(calls) && j < |calls| && calls[j].op.DoClaim?
    ensures
      var id, device := calls[j].op.id, calls[j].op.device;
      ReplyTo(calls, j).Granted? <==>
        Waiting(calls, j, id, device) && exists i: nat :: i < j && InTime(calls, i, j, id, device, calls[j].now)
    ensures ReplyTo(calls, j).Granted? ==>
      var device, task := calls[j].op.device, ReplyTo(calls, j).task;
      device in task.devices && task.devices[device].status.Leased?
  {
    hide After, Waiting, InTime, Monotone, PastExpiry;
    ClaimableExactly(calls, j, calls[j].op.id, calls[j].op.device);
  }

  /** The tasks listed for a device are those that a claim would be granted for, if they have an expiry at all. */
  lemma ListsExactly(calls: seq<Call>, j: nat, id: Id)
    requires Monotone(calls) && j < |calls| && calls[j].op.DoPendingTasks?
    ensures ReplyTo(calls, j).Pending?
    ensures
      var device, now := calls[j].op.device, calls[j].now;
      id in ReplyTo(calls, j).ids <==>
        Waiting(calls, j, id, device)
        && exists i: nat :: i < j && InTime(calls, i, j, id, device, now) && calls[i].op.task.expiresAt != ZERO_TIME
  {
    hide After, Waiting, Makes;
    var device, now, db := calls[j].op.device, calls[j].now, After(calls[..j]);
    ClaimableExactly(calls, j, id, device);
    if Has(db, id, device) {
      var i := TasksExactly(calls, j, id, device);
      forall l: nat | InTime(calls, l, j, id, device, now) ensures l == i { MadeOnce(calls, i, l, id, device); }
    }
    assert calls[j].now > ZERO_TIME;
  }

  /** A task is made exactly for a kind and at least one device; a status is set exactly of a task the device has. */
  lemma RepliesExactly(calls: seq<Call>, j: nat)
    requires j < |calls|
    ensures calls[j].op.DoCreateTask? ==>
      (ReplyTo(calls, j).Granted? <==> calls[j].op.task.kind != "" && |calls[j].op.task.devices| > 0)
    ensures calls[j].op.DoSetStatus? ==>
      var id, device := calls[j].op.id, calls[j].op.device;
      && (ReplyTo(calls, j).Granted? <==> exists i: nat :: i < j && Makes(calls, i, id, device))
      && (ReplyTo(calls, j).Granted? ==>
            var op, devices := calls[j].op, ReplyTo(calls, j).task.devices;
            device in devices && devices[device] == TaskDevice(op.status, op.result, calls[j].now))
  {
    hide After, Makes;
    var db := After(calls[..j]);
    if calls[j].op.DoSetStatus? {
      var id, device := calls[j].op.id, calls[j].op.device;
      if Has(db, id, device) {
        var i := TasksExactly(calls, j, id, device);
      }
      if i: nat :| i < j && Makes(calls, i, id, device) { MadeStays(calls, i, j, id, device); }
    }
  }
}
