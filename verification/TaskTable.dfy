/**
 * The durable upload queue: rows of `upload_tasks` and the effect of every
 * statement that touches them.  A transaction or a single SQL statement is one
 * atomic operation; `ReleaseLease` is two statements and therefore two operations.
 * Time is an integer and every process reads the same clock.
 */
module TaskTable {
  import opened Wrappers

  type Time = int
  type Id = nat

  datatype Status = Pending | Running | Success | Failed | Paused | Canceled

  datatype Task = Task(
    fileId: nat,
    folder: nat,
    fingerprint: string,
    remoteName: string,
    remotePath: string,
    key: string,
    priority: int,
    status: Status,
    retryCount: int,
    leaseOwner: string,
    leaseExpiresAt: Option<Time>,
    heartbeatAt: Option<Time>,
    cancelRequestedAt: Option<Time>,
    nextRetryAt: Option<Time>,
    startedAt: Option<Time>,
    finishedAt: Option<Time>,
    canceledAt: Option<Time>,
    lastStatusAt: Option<Time>,
    lastProgressAt: Option<Time>,
    progress: real,
    speed: int,
    failures: nat
  )

  type Table = map<Id, Task>

  /** The table and its auto-increment counter: identifiers are never reused. */
  datatype Db = Db(tasks: Table, nextId: Id)

  /** The part of a task its creator chooses. */
  datatype NewTask = NewTask(
    fileId: nat, folder: nat, fingerprint: string, remoteName: string, remotePath: string, key: string, priority: int)

  datatype Op =
    | Claim(owner: string, lease: Time, now: Time, locked: set<Id>)
    | Renew(id: Id, owner: string, lease: Time, now: Time)
    | Progress(id: Id, owner: string, percent: real, speed: int, now: Time)
    | Succeed(id: Id, owner: string, now: Time)
    | FinishCancel(id: Id, owner: string, now: Time)
    | Fail(id: Id, owner: string, retryAt: Time, now: Time)
    | ReleaseCanceled(id: Id, owner: string, now: Time)
    | ReleasePending(id: Id, owner: string, now: Time)
    | RequestCancel(id: Id, now: Time)
    | Reset(id: Id, now: Time)
    | Pause(id: Id, now: Time)
    | CancelFolders(folders: set<nat>, now: Time)
    | Delete(ids: set<Id>, now: Time)
    | Purge(ids: set<Id>, cutoff: Time, now: Time)
    | Create(task: NewTask, now: Time)

  /** A table with one task. */
  function OnlyTask(t: Task): Db {
    Db(map[1 := t], 2)
  }

  /** A counter per identifier, zero unless recorded. */
  function Count(m: map<nat, nat>, id: nat): nat {
    if id in m then m[id] else 0
  }

  /** `column IS NULL OR column <= now`. */
  predicate Due(at: Option<Time>, now: Time) {
    at.None? || at.value <= now
  }

  predicate Owns(t: Task, owner: string) {
    t.status == Running && t.leaseOwner == owner
  }

  predicate Queued(t: Task) {
    t.status == Pending || t.status == Paused || t.status == Failed
  }

  /** A task that still blocks a duplicate and will be worked on, or can be resumed. */
  predicate Open(t: Task) {
    Queued(t) || t.status == Running
  }

  predicate Terminal(t: Task) {
    t.status == Success || t.status == Failed || t.status == Canceled
  }

  // ---- the row images written by each statement

  function CanceledInQueue(t: Task, now: Time): Task {
    t.(status := Canceled, finishedAt := Some(now), canceledAt := Some(now), lastStatusAt := Some(now),
       nextRetryAt := None, cancelRequestedAt := None)
  }

  function Unleased(t: Task): Task {
    t.(leaseOwner := "", leaseExpiresAt := None, heartbeatAt := None)
  }

  function SweepQueued(t: Task, now: Time): Task {
    if Queued(t) && t.cancelRequestedAt.Some? then CanceledInQueue(t, now) else t
  }

  function SweepAbandoned(t: Task, now: Time): Task {
    if t.status == Running && t.cancelRequestedAt.Some? && Due(t.leaseExpiresAt, now) then
      Unleased(t).(status := Canceled, finishedAt := Some(now), canceledAt := Some(now), lastStatusAt := Some(now),
                   cancelRequestedAt := None)
    else t
  }

  function SweepExhausted(t: Task, now: Time, maxAttempts: int): Task {
    if t.status == Running && Due(t.leaseExpiresAt, now) && t.retryCount >= maxAttempts then
      Unleased(t).(status := Failed, finishedAt := Some(now), lastStatusAt := Some(now))
    else t
  }

  function Swept(t: Task, now: Time, maxAttempts: int): Task {
    SweepExhausted(SweepAbandoned(SweepQueued(t, now), now), now, maxAttempts)
  }

  predicate Eligible(t: Task, now: Time, maxAttempts: int) {
    && t.cancelRequestedAt.None?
    && t.retryCount < maxAttempts
    && ((t.status == Pending && Due(t.nextRetryAt, now)) || (t.status == Running && Due(t.leaseExpiresAt, now)))
  }

  function Claimed(t: Task, owner: string, lease: Time, now: Time): Task {
    t.(status := Running, startedAt := Some(now), finishedAt := None, lastStatusAt := Some(now), nextRetryAt := None,
       leaseOwner := owner, leaseExpiresAt := Some(now + lease), heartbeatAt := Some(now),
         retryCount := t.retryCount + 1)
  }

  function Renewed(t: Task, lease: Time, now: Time): Task {
    t.(leaseExpiresAt := Some(now + lease), heartbeatAt := Some(now))
  }

  function Succeeded(t: Task, now: Time): Task {
    Unleased(t).(status := Success, progress := 100.0, speed := 0, finishedAt := Some(now), lastStatusAt := Some(now),
                 cancelRequestedAt := None, nextRetryAt := None)
  }

  function CanceledByWorker(t: Task, now: Time): Task {
    Unleased(t).(status := Canceled, finishedAt := Some(now), canceledAt := Some(now), lastStatusAt := Some(now),
                 cancelRequestedAt := None, nextRetryAt := None)
  }

  /** The three-way failure transition: a cancel request wins over a retry, a retry over failure. */
  function AfterFailure(t: Task, retryAt: Time, now: Time, maxAttempts: int): Task {
    var base := Unleased(t).(lastStatusAt := Some(now), failures := t.failures + 1);
    if t.cancelRequestedAt.Some? then
      base.(status := Canceled, finishedAt := Some(now), nextRetryAt := None, canceledAt := Some(now),
        cancelRequestedAt := None)
    else if t.retryCount < maxAttempts then
      base.(status := Pending, finishedAt := None, nextRetryAt := Some(retryAt))
    else
      base.(status := Failed, finishedAt := Some(now), nextRetryAt := None)
  }

  function Released(t: Task): Task {
    Unleased(t).(status := Pending, nextRetryAt := None, retryCount := if t.retryCount > 0 then t.retryCount - 1 else 0)
  }

  function CancelRequested(t: Task, now: Time): Task {
    if t.status == Success || t.status == Canceled then t
    else if t.status == Running then t.(cancelRequestedAt := Some(now), lastStatusAt := Some(now))
    else CanceledInQueue(t, now)
  }

  predicate Resettable(t: Task) {
    t.status == Failed || t.status == Canceled || t.status == Paused
  }

  function ResetRow(t: Task, now: Time): Task {
    Unleased(t).(status := Pending, progress := 0.0, speed := 0, retryCount := 0, startedAt := None, finishedAt := None,
                 canceledAt := None, cancelRequestedAt := None, nextRetryAt := None, lastStatusAt := Some(now))
  }

  predicate Pausable(t: Task) {
    t.status != Running && t.status != Success
  }

  function PausedRow(t: Task, now: Time): Task {
    t.(status := Paused, lastStatusAt := Some(now), nextRetryAt := None)
  }

  /** The two bulk statements of a destination change or folder deletion, on one row. */
  function FolderCanceled(t: Task, now: Time): Task {
    if t.status == Running then t.(cancelRequestedAt := Some(now), lastStatusAt := Some(now))
    else if Queued(t) then CanceledInQueue(t, now)
    else t
  }

  function FreshTask(n: NewTask): Task {
    Task(n.fileId, n.folder, n.fingerprint, n.remoteName, n.remotePath, n.key, n.priority,
         Pending, 0, "", None, None, None, None, None, None, None, None, None, 0.0, 0, 0)
  }

  // ---- claiming: ORDER BY priority DESC, id ASC

  predicate Before(tasks: Table, a: Id, b: Id)
    requires a in tasks && b in tasks
  {
    tasks[a].priority > tasks[b].priority || (tasks[a].priority == tasks[b].priority && a <= b)
  }

  /** The rows `FOR UPDATE SKIP LOCKED` can return. */
  function Candidates(tasks: Table, now: Time, maxAttempts: int, locked: set<Id>): set<Id> {
    set id | id in tasks && id !in locked && Eligible(tasks[id], now, maxAttempts)
  }

  predicate IsFirst(tasks: Table, ids: set<Id>, id: Id)
    requires forall j | j in ids :: j in tasks
  {
    id in ids && forall j | j in ids :: Before(tasks, id, j)
  }

  lemma {:induction false} FirstExists(tasks: Table, ids: set<Id>) returns (first: Id)
    requires ids != {} && forall j | j in ids :: j in tasks
    ensures IsFirst(tasks, ids, first)
    decreases |ids|
  {
    var x :| x in ids;
    first := x;
    if ids != {x} {
      var rest := ids - {x};
      assert x in ids && forall j | j in ids :: j == x || j in rest;
      assert rest != {};
      var y := FirstExists(tasks, rest);
      first := if Before(tasks, x, y) then x else y;
    }
  }

  /** The row a claim takes, if any. */
  ghost function Winner(tasks: Table, now: Time, maxAttempts: int, locked: set<Id>): (w: Option<Id>)
    ensures w.None? <==> Candidates(tasks, now, maxAttempts, locked) == {}
    ensures w.Some? ==> IsFirst(tasks, Candidates(tasks, now, maxAttempts, locked), w.value)
  {
    var ids := Candidates(tasks, now, maxAttempts, locked);
    if ids == {} then None
    else
      assert exists first :: IsFirst(tasks, ids, first) by { var f := FirstExists(tasks, ids); }
      var first :| IsFirst(tasks, ids, first);
      Some(first)
  }

  /** Eligibility is the same before and after the three sweeps, whatever the row. */
  lemma SweepsKeepEligibility(t: Task, now: Time, maxAttempts: int)
    ensures Eligible(Swept(t, now, maxAttempts), now, maxAttempts) <==> Eligible(t, now, maxAttempts)
    ensures Eligible(t, now, maxAttempts) ==> Swept(t, now, maxAttempts) == t
  {}

  // ---- every operation, row by row

  function RowAfter(id: Id, t: Task, op: Op, winner: Option<Id>, maxAttempts: int): Task {
    match op
    case Claim(owner, lease, now, _) =>
      if winner.None? then t
      else if id == winner.value then Claimed(t, owner, lease, now)
      else Swept(t, now, maxAttempts)
    case Renew(x, owner, lease, now) =>
      if id == x && Owns(t, owner) && t.cancelRequestedAt.None? then Renewed(t, lease, now) else t
    case Progress(x, owner, percent, speed, now) =>
      if id == x && Owns(t, owner) then t.(progress := percent, speed := speed, lastProgressAt := Some(now)) else t
    case Succeed(x, owner, now) =>
      if id == x && Owns(t, owner) && t.cancelRequestedAt.None? then Succeeded(t, now) else t
    case FinishCancel(x, owner, now) =>
      if id == x && Owns(t, owner) then CanceledByWorker(t, now) else t
    case Fail(x, owner, retryAt, now) =>
      if id == x && Owns(t, owner) then AfterFailure(t, retryAt, now, maxAttempts) else t
    case ReleaseCanceled(x, owner, now) =>
      if id == x && Owns(t, owner) && t.cancelRequestedAt.Some? then CanceledByWorker(t, now) else t
    case ReleasePending(x, owner, _) =>
      if id == x && Owns(t, owner) && t.cancelRequestedAt.None? then Released(t) else t
    case RequestCancel(x, now) => if id == x then CancelRequested(t, now) else t
    case Reset(x, now) => if id == x && Resettable(t) then ResetRow(t, now) else t
    case Pause(x, now) => if id == x && Pausable(t) then PausedRow(t, now) else t
    case CancelFolders(folders, now) => if t.folder in folders then FolderCanceled(t, now) else t
    case Delete(_, _) => t
    case Purge(_, _, _) => t
    case Create(_, _) => t
  }

  predicate Removed(id: Id, t: Task, op: Op) {
    match op
    case Delete(ids, _) => id in ids && t.status != Running
    case Purge(ids, cutoff, _) => id in ids && Terminal(t) && t.finishedAt.Some? && t.finishedAt.value < cutoff
    case _ => false
  }

  predicate HasKey(tasks: Table, key: string) {
    exists id | id in tasks :: tasks[id].key == key
  }

  ghost function WinnerOf(tasks: Table, op: Op, maxAttempts: int): Option<Id> {
    if op.Claim? then Winner(tasks, op.now, maxAttempts, op.locked) else None
  }

  ghost function Survivors(tasks: Table, op: Op, maxAttempts: int): Table {
    var winner := WinnerOf(tasks, op, maxAttempts);
    map id | id in tasks && !Removed(id, tasks[id], op) :: RowAfter(id, tasks[id], op, winner, maxAttempts)
  }

  /** Insert unless the key exists. */
  function Created(db: Db, n: NewTask): Db {
    if HasKey(db.tasks, n.key) then db else Db(db.tasks[db.nextId := FreshTask(n)], db.nextId + 1)
  }

  /** One atomic operation on the database. */
  ghost function Apply(db: Db, op: Op, maxAttempts: int): Db {
    if op.Create? then Created(db, op.task)
    else Db(Survivors(db.tasks, op, maxAttempts), db.nextId)
  }

  /** What one operation can do to one row that existed before it. */
  lemma RowOf(db: Db, op: Op, maxAttempts: int, id: Id)
    requires id in db.tasks && db.nextId !in db.tasks
    ensures var after := Apply(db, op, maxAttempts).tasks;
      && (id in after <==> !Removed(id, db.tasks[id], op))
      && (id in after ==> after[id] == RowAfter(id, db.tasks[id], op, WinnerOf(db.tasks, op, maxAttempts), maxAttempts))
  {}
}
