/** Tasks as the server drives them: claims, results, disconnects and cleaning, in any order. */
module TaskSafety {
  import opened StoreModel
  import opened EnrollmentSafety

  // ---------------------------------------------------------------- what can be claimed

  /** The list of pending tasks is the list of tasks a claim would grant at that instant, when they have an expiry. */
  lemma PendingIsClaimable(db: Db, id: Id, device: DeviceId, now: Time)
    requires now > ZERO_TIME
    ensures id in PendingTasks(db, device, now) <==>
      (ClaimTask(db, id, device, now).1.Granted? && db.tasks[id].expiresAt != ZERO_TIME)
  {
  }

  // ---------------------------------------------------------------- the server

  /** An agent's connection: each has a goroutine of its own, and a device that reconnects has several for a while. */
  datatype Connection = Connection(device: DeviceId, number: nat)

  /** A claim that was granted and is not yet answered: the task, and when it was granted. */
  datatype Lease = Lease(id: Id, at: Time)

  /** A dispatch: the task, the device, when its claim was granted and when it was sent. */
  datatype Dispatch = Dispatch(id: Id, device: DeviceId, claimed: Time, sent: Time)

  datatype Server = Server(db: Db, claims: map<Connection, Lease>, dispatched: seq<Dispatch>)

  /** A claim takes two steps: the grant, and later its dispatch, or its failure when the asset is missing. */
  datatype Message =
    | TaskClaim(id: Id)
    | AnswerClaim(assetReady: bool)
    | TaskStarted(id: Id)
    | TaskResult(id: Id, success: bool, result: string)
    | Disconnect
    | StoreCall(op: Op)

  /** A store call that is not the handling of a task message; the server makes no others. */
  predicate Direct(op: Op) {
    !op.DoClaim? && !op.DoSetStatus?
  }

  function Claim(s: Server, from: Connection, id: Id, now: Time): Server {
    var (db, reply) := ClaimTask(s.db, id, from.device, now);
    if !reply.Granted? then s else s.(db := db, claims := s.claims[from := Lease(id, now)])
  }

  function Answer(s: Server, from: Connection, assetReady: bool, now: Time): Server {
    if from !in s.claims then s
    else
      var lease, s1 := s.claims[from], s.(claims := s.claims - {from});
      if assetReady then s1.(dispatched := s.dispatched + [Dispatch(lease.id, from.device, lease.at, now)])
      else s1.(db := SetTaskStatus(s.db, lease.id, from.device, Failure, "asset unavailable", now).0)
  }

  /** A goroutine that is answering a claim takes no other message, nor the end of its connection. */
  predicate Waits(s: Server, from: Connection, m: Message) {
    from in s.claims && !m.AnswerClaim? && !m.StoreCall?
  }

  function Handle(s: Server, from: Connection, m: Message, now: Time): Server {
    if Waits(s, from, m) then s
    else
      match m
      case TaskClaim(id) => Claim(s, from, id, now)
      case AnswerClaim(assetReady) => Answer(s, from, assetReady, now)
      case TaskStarted(id) => s.(db := SetTaskStatus(s.db, id, from.device, Running, "", now).0)
      case TaskResult(id, success, result) =>
        s.(db := SetTaskStatus(s.db, id, from.device, if success then Success else Failure, result, now).0)
      case Disconnect => s.(db := MarkLeasedUnknown(s.db, from.device, now))
      case StoreCall(op) => if Direct(op) then s.(db := Apply(s.db, Call(op, now)).0) else s
  }

  datatype Arrival = Arrival(from: Connection, message: Message, now: Time)

  function Serve(arrivals: seq<Arrival>): Server {
    if arrivals == [] then Server(EMPTY, map[], [])
    else
      var last := arrivals[|arrivals| - 1];
      Handle(Serve(arrivals[..|arrivals| - 1]), last.from, last.message, last.now)
  }

  // ---------------------------------------------------------------- the invariant

  /** A device has left the queue of a task. */
  predicate Left(db: Db, id: Id, device: DeviceId) {
    id in db.tasks && device in db.tasks[id].devices && db.tasks[id].devices[device].status != Queued
  }

  /** A change of the store that takes no device back into a queue and keeps every task's expiry. */
  ghost predicate Forward(db: Db, r: Db) {
    && db.drawn <= r.drawn
    && (forall id | id in r.tasks && id !in db.tasks :: db.drawn <= id)
    && (forall id | id in db.tasks :: id in r.tasks && r.tasks[id].expiresAt == db.tasks[id].expiresAt)
    && (forall id, device | Left(db, id, device) :: Left(r, id, device))
  }

  /** A device left the queue of a task by a claim that was granted in time. */
  ghost predicate WasInTime(db: Db, id: Id, device: DeviceId, claimed: Time) {
    Left(db, id, device) && !PastExpiry(db.tasks[id], claimed)
  }

  lemma StatusForward(db: Db, id: Id, device: DeviceId, status: Status, result: string, now: Time)
    requires status != Queued
    ensures Forward(db, SetTaskStatus(db, id, device, status, result, now).0)
  {
    hide Left;
    var r := SetTaskStatus(db, id, device, status, result, now).0;
    forall id', device' | Left(db, id', device') ensures Left(r, id', device') {
      StatusLeft(db, id, device, status, result, now, id', device');
    }
  }

  lemma StatusLeft(db: Db, id: Id, device: DeviceId, status: Status, result: string, now: Time,
                   id': Id, device': DeviceId)
    requires status != Queued && Left(db, id', device')
    ensures Left(SetTaskStatus(db, id, device, status, result, now).0, id', device')
  {
  }

  lemma ClaimForward(db: Db, id: Id, device: DeviceId, now: Time)
    ensures Forward(db, ClaimTask(db, id, device, now).0)
    ensures ClaimTask(db, id, device, now).1.Granted? ==>
      id in db.tasks && QueuedFor(db.tasks[id], device)
      && WasInTime(ClaimTask(db, id, device, now).0, id, device, now)
  {
  }

  lemma AbandonForward(db: Db, device: DeviceId, now: Time)
    ensures Forward(db, MarkLeasedUnknown(db, device, now))
  {
  }

  lemma CleanForward(db: Db, before: Time, now: Time)
    ensures Forward(db, Clean(db, before, now))
  {
    hide PastExpiry, Recent;
  }

  lemma CreateForward(db: Db, task: Task, now: Time)
    requires Numbered(db)
    ensures Forward(db, CreateTask(db, task, now).0)
  {
  }

  lemma DirectForward(db: Db, op: Op, now: Time)
    requires Direct(op) && Numbered(db)
    ensures Forward(db, Apply(db, Call(op, now)).0)
  {
    hide Clean, CreateTask, MarkLeasedUnknown, Forward, PendingTasks;
    match op
    case DoCreateTask(task) => CreateForward(db, task, now);
    case DoMarkLeasedUnknown(device) => AbandonForward(db, device, now);
    case DoClean(before) => CleanForward(db, before, now);
    case _ => OthersKeepTasks(db, op, now);
      SameTasksForward(db, Apply(db, Call(op, now)).0);
  }

  lemma OthersKeepTasks(db: Db, op: Op, now: Time)
    requires Direct(op) && !op.DoCreateTask? && !op.DoMarkLeasedUnknown? && !op.DoClean?
    ensures Apply(db, Call(op, now)).0.tasks == db.tasks && db.drawn <= Apply(db, Call(op, now)).0.drawn
  {
    hide DeviceIdRefused, CredentialRefused, Trim, CanExchange, Active, PendingTasks;
  }

  lemma SameTasksForward(db: Db, r: Db)
    requires r.tasks == db.tasks && db.drawn <= r.drawn
    ensures Forward(db, r)
  {
  }

  lemma ForwardChain(db: Db, r: Db, s: Db)
    requires Forward(db, r) && Forward(r, s)
    ensures Forward(db, s)
  {
  }

  lemma HandleNumbered(s: Server, from: Connection, m: Message, now: Time)
    requires Numbered(s.db)
    ensures Numbered(Handle(s, from, m, now).db)
  {
    match m {
      case StoreCall(op) => if Direct(op) { ApplyNumbered(s.db, Call(op, now)); }
      case _ => hide Apply, PastExpiry, Abandoned;
    }
  }

  lemma HandleForward(s: Server, from: Connection, m: Message, now: Time)
    requires Numbered(s.db)
    ensures Forward(s.db, Handle(s, from, m, now).db)
  {
    hide Forward, ClaimTask, SetTaskStatus, MarkLeasedUnknown, Apply;
    SameTasksForward(s.db, s.db);
    match m {
      case TaskClaim(id) => ClaimForward(s.db, id, from.device, now);
      case AnswerClaim(_) =>
        if from in s.claims { StatusForward(s.db, s.claims[from].id, from.device, Failure, "asset unavailable", now); }
      case TaskStarted(id) => StatusForward(s.db, id, from.device, Running, "", now);
      case TaskResult(id, success, result) =>
        StatusForward(s.db, id, from.device, if success then Success else Failure, result, now);
      case Disconnect => AbandonForward(s.db, from.device, now);
      case StoreCall(op) => if Direct(op) { DirectForward(s.db, op, now); }
    }
  }

  lemma {:induction false} ServeNumbered(arrivals: seq<Arrival>)
    ensures Numbered(Serve(arrivals).db)
  {
    hide Handle;
    if arrivals != [] {
      var front, last := arrivals[..|arrivals| - 1], arrivals[|arrivals| - 1];
      ServeNumbered(front);
      HandleNumbered(Serve(front), last.from, last.message, last.now);
    }
  }

  lemma ServeNext(arrivals: seq<Arrival>, j: nat)
    requires j < |arrivals|
    ensures Serve(arrivals[..j + 1]) ==
      Handle(Serve(arrivals[..j]), arrivals[j].from, arrivals[j].message, arrivals[j].now)
  {
    hide Handle;
    assert arrivals[..j + 1][..j] == arrivals[..j];
  }

  lemma {:induction false} ServeForward(arrivals: seq<Arrival>, i: nat, j: nat)
    requires i <= j <= |arrivals|
    ensures Forward(Serve(arrivals[..i]).db, Serve(arrivals[..j]).db)
    decreases j
  {
    hide Handle, Forward;
    if i < j {
      ServeForward(arrivals, i, j - 1);
      ServeNumbered(arrivals[..j - 1]);
      var s, a := Serve(arrivals[..j - 1]), arrivals[j - 1];
      ServeNext(arrivals, j - 1);
      HandleForward(s, a.from, a.message, a.now);
      ForwardChain(Serve(arrivals[..i]).db, s.db, Serve(arrivals[..j]).db);
    } else {
      SameTasksForward(Serve(arrivals[..i]).db, Serve(arrivals[..i]).db);
    }
  }

  // ---------------------------------------------------------------- the theorems

  /** A device that has left a task's queue never comes back into it. */
  lemma NeverRequeued(arrivals: seq<Arrival>, i: nat, j: nat, id: Id, device: DeviceId)
    requires i <= j <= |arrivals| && Left(Serve(arrivals[..i]).db, id, device)
    ensures Left(Serve(arrivals[..j]).db, id, device)
  {
    hide Left;
    ServeForward(arrivals, i, j);
  }

  /** What every claim and every dispatch keeps: its claim was granted in time, and there is no other for the same. */
  ghost predicate Dispatches(s: Server) {
    && (forall k | 0 <= k < |s.dispatched| ::
          WasInTime(s.db, s.dispatched[k].id, s.dispatched[k].device, s.dispatched[k].claimed))
    && (forall c | c in s.claims :: WasInTime(s.db, s.claims[c].id, c.device, s.claims[c].at))
    && (forall k, l | 0 <= k < l < |s.dispatched| ::
          s.dispatched[k].id != s.dispatched[l].id || s.dispatched[k].device != s.dispatched[l].device)
    && (forall c, d | c in s.claims && d in s.claims && c != d ::
      s.claims[c].id != s.claims[d].id || c.device != d.device)
    && (forall c, k | c in s.claims && 0 <= k < |s.dispatched| ::
          s.claims[c].id != s.dispatched[k].id || c.device != s.dispatched[k].device)
  }

  lemma ForwardInTime(db: Db, r: Db, id: Id, device: DeviceId, claimed: Time)
    requires Forward(db, r) && WasInTime(db, id, device, claimed)
    ensures WasInTime(r, id, device, claimed)
  {
  }

  lemma ForwardDispatches(s: Server, r: Server)
    requires Dispatches(s) && Forward(s.db, r.db) && r.dispatched == s.dispatched
    requires r.claims.Keys <= s.claims.Keys && forall c | c in r.claims :: r.claims[c] == s.claims[c]
    ensures Dispatches(r)
  {
    hide Forward, WasInTime;
    forall k | 0 <= k < |r.dispatched|
      ensures WasInTime(r.db, r.dispatched[k].id, r.dispatched[k].device, r.dispatched[k].claimed)
    {
      ForwardInTime(s.db, r.db, r.dispatched[k].id, r.dispatched[k].device, r.dispatched[k].claimed);
    }
    forall c | c in r.claims ensures WasInTime(r.db, r.claims[c].id, c.device, r.claims[c].at) {
      ForwardInTime(s.db, r.db, r.claims[c].id, c.device, r.claims[c].at);
    }
  }

  lemma ClaimDispatches(s: Server, from: Connection, id: Id, now: Time)
    requires Dispatches(s) && from !in s.claims && ClaimTask(s.db, id, from.device, now).1.Granted?
    ensures Dispatches(Claim(s, from, id, now))
  {
    hide ClaimTask, Dispatches, WasInTime;
    var db := ClaimTask(s.db, id, from.device, now).0;
    ClaimForward(s.db, id, from.device, now);
    QueuedNotDispatched(s, id, from.device);
    ForwardDispatches(s, s.(db := db));
    OneMoreClaim(s.(db := db), from, Lease(id, now));
  }

  lemma QueuedNotDispatched(s: Server, id: Id, device: DeviceId)
    requires Dispatches(s) && id in s.db.tasks && QueuedFor(s.db.tasks[id], device)
    ensures forall k | 0 <= k < |s.dispatched| :: s.dispatched[k].id != id || s.dispatched[k].device != device
    ensures forall c | c in s.claims :: s.claims[c].id != id || c.device != device
  {
  }

  lemma OneMoreClaim(s: Server, from: Connection, lease: Lease)
    requires Dispatches(s) && WasInTime(s.db, lease.id, from.device, lease.at) && from !in s.claims
    requires forall k | 0 <= k < |s.dispatched| ::
      s.dispatched[k].id != lease.id || s.dispatched[k].device != from.device
    requires forall c | c in s.claims :: s.claims[c].id != lease.id || c.device != from.device
    ensures Dispatches(s.(claims := s.claims[from := lease]))
  {
    hide WasInTime;
  }

  /** A dispatch takes the place of its claim. */
  lemma AnswerDispatches(s: Server, from: Connection, now: Time)
    requires Dispatches(s) && from in s.claims
    ensures Dispatches(Answer(s, from, true, now))
  {
    hide WasInTime;
  }

  /** No task is dispatched twice to a device, and each dispatch had been claimed by its expiry. */
  lemma {:induction false} DispatchedOnceInTime(arrivals: seq<Arrival>)
    ensures Dispatches(Serve(arrivals))
  {
    hide Dispatches, Forward, ClaimTask, SetTaskStatus, MarkLeasedUnknown, Apply, Handle;
    if arrivals == [] {
      NoDispatches();
    } else {
      var front, a := arrivals[..|arrivals| - 1], arrivals[|arrivals| - 1];
      var s := Serve(front);
      DispatchedOnceInTime(front);
      ServeNumbered(front);
      HandleDispatches(s, a.from, a.message, a.now);
    }
  }

  lemma NoDispatches()
    ensures Dispatches(Server(EMPTY, map[], []))
  {
  }

  lemma HandleDispatches(s: Server, from: Connection, m: Message, now: Time)
    requires Numbered(s.db) && Dispatches(s)
    ensures Dispatches(Handle(s, from, m, now))
  {
    hide Dispatches, Forward, ClaimTask, SetTaskStatus, MarkLeasedUnknown, Apply;
    HandleForward(s, from, m, now);
    if m.TaskClaim? && from !in s.claims && ClaimTask(s.db, m.id, from.device, now).1.Granted? {
      ClaimDispatches(s, from, m.id, now);
    } else if m.AnswerClaim? && m.assetReady && from in s.claims {
      AnswerDispatches(s, from, now);
    } else {
      ForwardDispatches(s, Handle(s, from, m, now));
    }
  }

  // ---------------------------------------------------------------- who decides a device's record

  predicate Terminal(status: Status) {
    status == Success || status == Failure || status == Unknown || status == Expired
  }

  predicate HasRecord(db: Db, id: Id, device: DeviceId) {
    id in db.tasks && device in db.tasks[id].devices
  }

  function RecordOf(db: Db, id: Id, device: DeviceId): TaskDevice
    requires HasRecord(db, id, device)
  {
    db.tasks[id].devices[device]
  }

  /** A step in which a device's record is written: a report of the device, or a claim that finds its asset missing. */
  predicate Reports(s: Server, a: Arrival, id: Id, device: DeviceId) {
    && a.from.device == device
    && match a.message
       case TaskStarted(i) => i == id && a.from !in s.claims
       case TaskResult(i, _, _) => i == id && a.from !in s.claims
       case AnswerClaim(assetReady) => !assetReady && a.from in s.claims && s.claims[a.from].id == id
       case _ => false
  }

  /** An arrival that gives up what a device has under way. */
  predicate GivesUp(s: Server, a: Arrival, device: DeviceId) {
    (a.message.Disconnect? && a.from.device == device && a.from !in s.claims)
    || (a.message.StoreCall? && a.message.op.DoMarkLeasedUnknown? && a.message.op.device == device)
  }

  /** A record is touched by others only while it is queued, or while it is under way and given up. */
  predicate Settled(d: TaskDevice, s: Server, a: Arrival, device: DeviceId) {
    d.status != Queued && (GivesUp(s, a, device) ==> d.status != Leased && d.status != Running)
  }

  lemma StatusLeaves(db: Db, id: Id, device: DeviceId, status: Status, result: string, now: Time,
                     id': Id, device': DeviceId)
    requires HasRecord(db, id', device') && (id != id' || device != device')
    ensures
      var r := SetTaskStatus(db, id, device, status, result, now).0;
      HasRecord(r, id', device') && RecordOf(r, id', device') == RecordOf(db, id', device')
  {
  }

  lemma ClaimLeaves(db: Db, id: Id, device: DeviceId, now: Time, id': Id, device': DeviceId)
    requires HasRecord(db, id', device') && RecordOf(db, id', device').status != Queued
    ensures
      var r := ClaimTask(db, id, device, now).0;
      HasRecord(r, id', device') && RecordOf(r, id', device') == RecordOf(db, id', device')
    ensures ClaimTask(db, id, device, now).1.Granted? ==> id != id' || device != device'
  {
    hide PastExpiry;
  }

  lemma AbandonLeaves(db: Db, device: DeviceId, now: Time, id': Id, device': DeviceId)
    requires HasRecord(db, id', device') && (device == device' ==> !UnderWay(db.tasks[id'], device'))
    ensures
      var r := MarkLeasedUnknown(db, device, now);
      HasRecord(r, id', device') && RecordOf(r, id', device') == RecordOf(db, id', device')
  {
  }

  lemma CleanLeaves(db: Db, before: Time, now: Time, id': Id, device': DeviceId)
    requires HasRecord(db, id', device') && RecordOf(db, id', device').status != Queued
    ensures
      var r := Clean(db, before, now);
      HasRecord(r, id', device') && RecordOf(r, id', device') == RecordOf(db, id', device')
  {
    hide PastExpiry, Recent;
  }

  lemma CreateLeaves(db: Db, task: Task, now: Time, id': Id, device': DeviceId)
    requires Numbered(db) && HasRecord(db, id', device')
    ensures
      var r := CreateTask(db, task, now).0;
      HasRecord(r, id', device') && RecordOf(r, id', device') == RecordOf(db, id', device')
  {
  }

  lemma DirectLeaves(s: Server, op: Op, a: Arrival, id: Id, device: DeviceId)
    requires Direct(op) && Numbered(s.db) && a.message == StoreCall(op)
    requires HasRecord(s.db, id, device) && Settled(RecordOf(s.db, id, device), s, a, device)
    ensures
      var r := Apply(s.db, Call(op, a.now)).0;
      HasRecord(r, id, device) && RecordOf(r, id, device) == RecordOf(s.db, id, device)
  {
    var db := s.db;
    hide Clean, CreateTask, MarkLeasedUnknown, PendingTasks;
    match op
    case DoCreateTask(task) => CreateLeaves(db, task, a.now, id, device);
    case DoMarkLeasedUnknown(d) => AbandonLeaves(db, d, a.now, id, device);
    case DoClean(before) => CleanLeaves(db, before, a.now, id, device);
    case _ => OthersKeepTasks(db, op, a.now);
  }

  /** A settled record changes only by such a write. */
  lemma SettledStays(s: Server, a: Arrival, id: Id, device: DeviceId)
    requires Numbered(s.db) && HasRecord(s.db, id, device) && !Reports(s, a, id, device)
    requires Settled(RecordOf(s.db, id, device), s, a, device)
    ensures
      var r := Handle(s, a.from, a.message, a.now).db;
      HasRecord(r, id, device) && RecordOf(r, id, device) == RecordOf(s.db, id, device)
  {
    hide ClaimTask, SetTaskStatus, MarkLeasedUnknown, Apply;
    if !Waits(s, a.from, a.message) {
      match a.message {
        case TaskClaim(id') => ClaimLeaves(s.db, id', a.from.device, a.now, id, device);
        case AnswerClaim(assetReady) =>
          if a.from in s.claims && !assetReady {
            StatusLeaves(s.db, s.claims[a.from].id, a.from.device, Failure, "asset unavailable", a.now, id, device);
          }
        case TaskStarted(id') => StatusLeaves(s.db, id', a.from.device, Running, "", a.now, id, device);
        case TaskResult(id', success, result) =>
          StatusLeaves(s.db, id', a.from.device, if success then Success else Failure, result, a.now, id, device);
        case Disconnect => AbandonLeaves(s.db, a.from.device, a.now, id, device);
        case StoreCall(op) => if Direct(op) { DirectLeaves(s, op, a, id, device); }
      }
    }
  }

  /** Such a write sets the record. */
  lemma ReportSets(s: Server, a: Arrival, id: Id, device: DeviceId)
    requires HasRecord(s.db, id, device) && Reports(s, a, id, device)
    ensures HasRecord(Handle(s, a.from, a.message, a.now).db, id, device)
    ensures RecordOf(Handle(s, a.from, a.message, a.now).db, id, device) == Reported(a)
  {
  }

  /** What it says. */
  function Reported(a: Arrival): TaskDevice {
    match a.message
    case TaskResult(_, success, result) => TaskDevice(if success then Success else Failure, result, a.now)
    case AnswerClaim(_) => TaskDevice(Failure, "asset unavailable", a.now)
    case _ => TaskDevice(Running, "", a.now)
  }

  ghost predicate Silent(arrivals: seq<Arrival>, i: nat, j: nat, id: Id, device: DeviceId)
    requires i <= j <= |arrivals|
  {
    forall k | i <= k < j :: !Reports(Serve(arrivals[..k]), arrivals[k], id, device)
  }

  /** While some arrivals come in, a device is given up. */
  ghost predicate GivenUpWithin(arrivals: seq<Arrival>, i: nat, j: nat, device: DeviceId)
    requires i <= j <= |arrivals|
  {
    exists l | i <= l < j :: GivesUp(Serve(arrivals[..l]), arrivals[l], device)
  }

  /**
   * A terminal status stays, with its result and its time, for as long as its device does not report on the task and no
   * claim of the device for it finds its asset missing.
   */
  lemma {:induction false} TerminalStays(arrivals: seq<Arrival>, i: nat, j: nat, id: Id, device: DeviceId)
    requires i <= j <= |arrivals| && Silent(arrivals, i, j, id, device)
    requires HasRecord(Serve(arrivals[..i]).db, id, device)
    requires Terminal(RecordOf(Serve(arrivals[..i]).db, id, device).status)
    ensures HasRecord(Serve(arrivals[..j]).db, id, device)
    ensures RecordOf(Serve(arrivals[..j]).db, id, device) == RecordOf(Serve(arrivals[..i]).db, id, device)
    decreases j
  {
    hide Handle, Reports, HasRecord, RecordOf;
    if i < j {
      TerminalStays(arrivals, i, j - 1, id, device);
      ServeNumbered(arrivals[..j - 1]);
      SettledStays(Serve(arrivals[..j - 1]), arrivals[j - 1], id, device);
      ServeNext(arrivals, j - 1);
    }
  }

  /**
   * The last write decides: after a result, or a claim that found its asset missing, the record says so, whatever was
   * there before, and stays; after a start it is running until the device is given up, and then it is unknown.
   */
  lemma LastReportDecides(arrivals: seq<Arrival>, k: nat, j: nat, id: Id, device: DeviceId)
    requires k < j <= |arrivals| && Reports(Serve(arrivals[..k]), arrivals[k], id, device)
    requires Silent(arrivals, k + 1, j, id, device) && HasRecord(Serve(arrivals[..k]).db, id, device)
    ensures HasRecord(Serve(arrivals[..j]).db, id, device)
    ensures
      var r := RecordOf(Serve(arrivals[..j]).db, id, device);
      if arrivals[k].message.TaskStarted? && GivenUpWithin(arrivals, k + 1, j, device) then
        r.status == Unknown && r.result == "agent disconnected after claim"
      else r == Reported(arrivals[k])
  {
    hide Handle, Serve, HasRecord, RecordOf, GivenUpWithin;
    ReportSets(Serve(arrivals[..k]), arrivals[k], id, device);
    ServeNext(arrivals, k);
    if arrivals[k].message.TaskStarted? {
      RunningStays(arrivals, k + 1, j, id, device);
    } else {
      TerminalStays(arrivals, k + 1, j, id, device);
    }
  }

  /** A running record stays until its device is given up; then it is unknown, which is terminal. */
  lemma {:induction false} RunningStays(arrivals: seq<Arrival>, i: nat, j: nat, id: Id, device: DeviceId)
    requires i <= j <= |arrivals| && Silent(arrivals, i, j, id, device)
    requires HasRecord(Serve(arrivals[..i]).db, id, device)
    requires RecordOf(Serve(arrivals[..i]).db, id, device).status == Running
    ensures HasRecord(Serve(arrivals[..j]).db, id, device)
    ensures
      var r := RecordOf(Serve(arrivals[..j]).db, id, device);
      if GivenUpWithin(arrivals, i, j, device) then r.status == Unknown && r.result == "agent disconnected after claim"
      else r == RecordOf(Serve(arrivals[..i]).db, id, device)
    decreases j
  {
    hide Handle, Reports, Serve, HasRecord, RecordOf, GivesUp;
    if i < j {
      var s, a := Serve(arrivals[..j - 1]), arrivals[j - 1];
      RunningStays(arrivals, i, j - 1, id, device);
      ServeNumbered(arrivals[..j - 1]);
      ServeNext(arrivals, j - 1);
      if GivesUp(s, a, device) && RecordOf(s.db, id, device).status == Running {
        LeasedIsUnderWay(s.db, id, device);
        GivenUp(s, a, id, device);
      } else {
        SettledStays(s, a, id, device);
      }
    }
  }

  lemma GivenUp(s: Server, a: Arrival, id: Id, device: DeviceId)
    requires HasRecord(s.db, id, device) && GivesUp(s, a, device) && UnderWay(s.db.tasks[id], device)
    ensures
      var r := Handle(s, a.from, a.message, a.now);
      && r.claims == s.claims && HasRecord(r.db, id, device)
      && RecordOf(r.db, id, device) == TaskDevice(Unknown, "agent disconnected after claim", a.now)
  {
  }

  // ---------------------------------------------------------------- runs in which something is late

  lemma AnsweredLate(s: Server, from: Connection, later: Time)
    requires from in s.claims
    ensures
      var r := Handle(s, from, AnswerClaim(true), later);
      && r.db == s.db
      && r.dispatched == s.dispatched + [Dispatch(s.claims[from].id, from.device, s.claims[from].at, later)]
  {
  }

  lemma CreatedFirst(task: Task, from: Connection, now: Time)
    requires task.kind != "" && from.device in task.devices
    ensures
      var s := Handle(Serve([]), from, StoreCall(DoCreateTask(task)), now);
      && s.claims == map[] && s.dispatched == [] && 0 in s.db.tasks
      && QueuedFor(s.db.tasks[0], from.device) && s.db.tasks[0].expiresAt == task.expiresAt
  {
    assert task.devices.Keys != {};
  }

  lemma ClaimGranted(s: Server, from: Connection, id: Id, now: Time)
    requires from !in s.claims && id in s.db.tasks && QueuedFor(s.db.tasks[id], from.device)
    requires !PastExpiry(s.db.tasks[id], now)
    ensures
      var r := Handle(s, from, TaskClaim(id), now);
      && r.claims == s.claims[from := Lease(id, now)] && r.dispatched == s.dispatched
      && HasRecord(r.db, id, from.device) && RecordOf(r.db, id, from.device).status == Leased
      && r.db.tasks[id].expiresAt == s.db.tasks[id].expiresAt
  {
  }

  /** A task that is created, claimed and answered, and answered again the other way. */
  function TwoAnswers(task: Task, from: Connection, now: Time, first: bool): seq<Arrival> {
    [Arrival(from, StoreCall(DoCreateTask(task)), now), Arrival(from, TaskClaim(0), now),
     Arrival(from, AnswerClaim(true), now),
     Arrival(from, TaskResult(0, first, "first"), now), Arrival(from, TaskResult(0, !first, "second"), now)]
  }

  /** So a terminal status is not final: in such a run the first answer is there at first, and gone at the end. */
  lemma LateResultOverwrites(task: Task, from: Connection, now: Time, first: bool)
    requires task.kind != "" && from.device in task.devices && (task.expiresAt == ZERO_TIME || now <= task.expiresAt)
    ensures
      var run := TwoAnswers(task, from, now, first);
      var before, after := Serve(run[..4]).db, Serve(run).db;
      && HasRecord(before, 0, from.device) && RecordOf(before, 0, from.device) == Reported(run[3])
      && HasRecord(after, 0, from.device) && RecordOf(after, 0, from.device) == Reported(run[4])
      && Terminal(RecordOf(before, 0, from.device).status)
      && RecordOf(after, 0, from.device).status != RecordOf(before, 0, from.device).status
  {
    hide Handle, HasRecord, RecordOf;
    var run := TwoAnswers(task, from, now, first);
    assert run[..0] == [] && run[..5] == run;
    ServeNext(run, 0);
    ServeNext(run, 1);
    ServeNext(run, 2);
    ServeNext(run, 3);
    ServeNext(run, 4);
    CreatedFirst(task, from, now);
    ClaimGranted(Serve(run[..1]), from, 0, now);
    AnsweredLate(Serve(run[..2]), from, now);
    AnswerEnds(Serve(run[..2]), from, true, now);
    ReportSets(Serve(run[..3]), run[3], 0, from.device);
    ReportKeepsClaims(Serve(run[..3]), run[3]);
    ReportSets(Serve(run[..4]), run[4], 0, from.device);
  }

  lemma AnswerEnds(s: Server, from: Connection, assetReady: bool, now: Time)
    ensures Handle(s, from, AnswerClaim(assetReady), now).claims == s.claims - {from}
  {
  }

  lemma ReportKeepsClaims(s: Server, a: Arrival)
    requires a.message.TaskResult?
    ensures Handle(s, a.from, a.message, a.now).claims == s.claims
  {
  }

  /** A task that is claimed, given up when a newer connection of its device ends, and found without its asset. */
  function LateFailure(task: Task, from: Connection, newer: Connection, now: Time): seq<Arrival> {
    [Arrival(from, StoreCall(DoCreateTask(task)), now), Arrival(from, TaskClaim(0), now),
     Arrival(newer, Disconnect, now), Arrival(from, AnswerClaim(false), now)]
  }

  /** Then a terminal status is overwritten although the device sent neither a start nor a result. */
  lemma LateFailureOverwrites(task: Task, from: Connection, newer: Connection, now: Time)
    requires task.kind != "" && from.device in task.devices && (task.expiresAt == ZERO_TIME || now <= task.expiresAt)
    requires newer != from && newer.device == from.device
    ensures
      var run := LateFailure(task, from, newer, now);
      var before, after := Serve(run[..3]).db, Serve(run).db;
      && HasRecord(before, 0, from.device) && RecordOf(before, 0, from.device).status == Unknown
      && HasRecord(after, 0, from.device) && RecordOf(after, 0, from.device).status == Failure
  {
    hide Handle, HasRecord, RecordOf;
    var run := LateFailure(task, from, newer, now);
    assert run[..0] == [] && run[..4] == run;
    ServeNext(run, 0);
    ServeNext(run, 1);
    ServeNext(run, 2);
    ServeNext(run, 3);
    CreatedFirst(task, from, now);
    ClaimGranted(Serve(run[..1]), from, 0, now);
    LeasedIsUnderWay(Serve(run[..2]).db, 0, from.device);
    GivenUp(Serve(run[..2]), run[2], 0, from.device);
    ReportSets(Serve(run[..3]), run[3], 0, from.device);
  }

  lemma LeasedIsUnderWay(db: Db, id: Id, device: DeviceId)
    requires HasRecord(db, id, device)
    requires RecordOf(db, id, device).status == Leased || RecordOf(db, id, device).status == Running
    ensures id in db.tasks && UnderWay(db.tasks[id], device)
  {
  }

  /** A claim that waits for its asset may be dispatched after the task's expiry. */
  lemma DispatchMayBeLate(task: Task, from: Connection, now: Time, later: Time)
    requires task.kind != "" && from.device in task.devices
    requires task.expiresAt != ZERO_TIME && now <= task.expiresAt < later
    ensures
      var s := Serve([Arrival(from, StoreCall(DoCreateTask(task)), now), Arrival(from, TaskClaim(0), now),
                      Arrival(from, AnswerClaim(true), later)]);
      && s.dispatched == [Dispatch(0, from.device, now, later)]
      && 0 in s.db.tasks && PastExpiry(s.db.tasks[0], later)
  {
    hide Handle;
    var run := [Arrival(from, StoreCall(DoCreateTask(task)), now), Arrival(from, TaskClaim(0), now),
                Arrival(from, AnswerClaim(true), later)];
    assert run[..0] == [] && run[..3] == run;
    ServeNext(run, 0);
    ServeNext(run, 1);
    ServeNext(run, 2);
    CreatedFirst(task, from, now);
    ClaimGranted(Serve(run[..1]), from, 0, now);
    AnsweredLate(Serve(run[..2]), from, later);
  }
}
